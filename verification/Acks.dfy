// What the encoder knows of each receiver, and which symbols a window policy drops.

module Acks {
  import opened Bytes
  import opened Keys
  import F = Feedback

  datatype Entry = Entry(cumulative: nat, sack: set<nat>)

  type Receivers = map<nat, Entry>

  predicate EntryAcks(e: Entry, id: nat) {
    id < e.cumulative || id in e.sack
  }

  predicate IsAcked(receivers: Receivers, rid: nat, id: nat) {
    rid in receivers && EntryAcks(receivers[rid], id)
  }

  // What one packet acknowledges: everything before its first id, and the bits of its vector.
  predicate PacketAcks(p: F.FeedbackPacket, id: nat) {
    id < p.firstSrcId || F.IsAcked(p.sack, p.firstSrcId, id)
  }

  // ---------------------------------------------------------------- updating an entry

  function Advance(e: Entry, first: nat): Entry {
    if first > e.cumulative then Entry(first, set id | id in e.sack && id >= first) else e
  }

  // Move the mark over the ids that follow it.
  function Climb(e: Entry): (r: Entry)
    ensures forall id :: EntryAcks(r, id) <==> EntryAcks(e, id)
    ensures r.cumulative !in r.sack && e.cumulative <= r.cumulative
    decreases |e.sack|
  {
    if e.cumulative in e.sack then Climb(Entry(e.cumulative + 1, e.sack - {e.cumulative})) else e
  }

  function Members(ids: seq<nat>): set<nat> {
    set id | id in ids
  }

  function Updated(e: Entry, p: F.FeedbackPacket): Entry {
    var a := Advance(e, p.firstSrcId);
    Climb(Entry(a.cumulative, a.sack + Members(F.AckedIds(p.sack, p.firstSrcId))))
  }

  // One packet adds to the acknowledged ids exactly what it acknowledges.
  lemma UpdatedAcks(e: Entry, p: F.FeedbackPacket, id: nat)
    ensures EntryAcks(Updated(e, p), id) <==> EntryAcks(e, id) || PacketAcks(p, id)
  {
    F.AckedIdsAre(p.sack, p.firstSrcId, id);
    var a := Advance(e, p.firstSrcId);
    assert EntryAcks(Updated(e, p), id)
      <==> EntryAcks(Entry(a.cumulative, a.sack + Members(F.AckedIds(p.sack, p.firstSrcId))), id);
  }

  function AfterAll(packets: seq<F.FeedbackPacket>): Entry {
    if packets == [] then Entry(0, {})
    else Updated(AfterAll(packets[..|packets| - 1]), packets[|packets| - 1])
  }

  // The entry is a set: the union over the packets, whatever their order and however often they come.
  lemma {:induction false} AfterAllIsUnion(packets: seq<F.FeedbackPacket>, id: nat)
    ensures EntryAcks(AfterAll(packets), id) <==> exists p :: p in packets && PacketAcks(p, id)
  {
    if packets != [] {
      var init, last := packets[..|packets| - 1], packets[|packets| - 1];
      AfterAllIsUnion(init, id);
      UpdatedAcks(AfterAll(init), last, id);
      assert forall p :: p in packets <==> p in init || p == last;
    }
  }

  lemma OrderDoesNotMatter(packets: seq<F.FeedbackPacket>, others: seq<F.FeedbackPacket>, id: nat)
    requires forall p :: p in packets <==> p in others
    ensures EntryAcks(AfterAll(packets), id) <==> EntryAcks(AfterAll(others), id)
  {
    AfterAllIsUnion(packets, id);
    AfterAllIsUnion(others, id);
  }

  // No mark at or below the cumulative one is left over.
  ghost predicate Tidy(e: Entry) {
    forall id :: id in e.sack ==> e.cumulative <= id
  }

  // Climbing takes out only marks that it passes.
  lemma {:induction false} ClimbKeeps(e: Entry, id: nat)
    ensures id in Climb(e).sack && id < Climb(e).cumulative <==> id in e.sack && id < e.cumulative
    decreases |e.sack|
  {
    if e.cumulative in e.sack {
      ClimbKeeps(Entry(e.cumulative + 1, e.sack - {e.cumulative}), id);
    }
  }

  lemma MarkLeft(e: Entry, p: F.FeedbackPacket, id: nat)
    requires Tidy(e)
    ensures id in Updated(e, p).sack && id < Updated(e, p).cumulative
       <==> id < e.cumulative && F.IsAcked(p.sack, p.firstSrcId, id)
  {
    var a := Advance(e, p.firstSrcId);
    F.AckedIdsAre(p.sack, p.firstSrcId, id);
    ClimbKeeps(Entry(a.cumulative, a.sack + Members(F.AckedIds(p.sack, p.firstSrcId))), id);
  }

  // The entry itself does remember the order: a packet leaves marks behind the cumulative one
  // exactly when its vector acknowledges an id behind it.
  lemma OldFeedbackLeavesMarks(e: Entry, p: F.FeedbackPacket)
    requires Tidy(e)
    ensures !Tidy(Updated(e, p))
       <==> exists id: nat :: id < e.cumulative && F.IsAcked(p.sack, p.firstSrcId, id)
  {
    forall id: nat
      ensures id in Updated(e, p).sack && id < Updated(e, p).cumulative
         <==> id < e.cumulative && F.IsAcked(p.sack, p.firstSrcId, id)
    {
      MarkLeft(e, p, id);
    }
  }

  // Everything below n, and, in a packet that is older, symbol 1 of a vector from 0 on.
  function Cumulative(n: nat): F.FeedbackPacket {
    F.FeedbackPacket(0, 0, n, ZERO, [])
  }

  function Older(): F.FeedbackPacket {
    F.FeedbackPacket(0, 0, 0, ZERO, F.SackOf(0, [1]))
  }

  lemma CumulativeOnly(n: nat)
    ensures Updated(Entry(0, {}), Cumulative(n)) == Entry(n, {})
  {
    forall id: nat ensures id !in F.AckedIds([], n) {
      F.AckedIdsAre([], n, id);
    }
    assert Members(F.AckedIds([], n)) == {};
    assert Advance(Entry(0, {}), n).sack == {};
  }

  lemma AfterTwo(p: F.FeedbackPacket, q: F.FeedbackPacket)
    ensures AfterAll([p, q]) == Updated(Updated(Entry(0, {}), p), q)
  {
    assert [p, q][..1] == [p] && [p][..0] == [];
    assert AfterAll([p]) == Updated(AfterAll([]), p);
  }

  lemma OldAfterNew(e: Entry)
    requires Tidy(e)
    ensures Tidy(Updated(e, Older())) <==> e.cumulative <= 1
  {
    OldFeedbackLeavesMarks(e, Older());
    F.SackOfAcks(0, [1], 1);
    forall id: nat ensures F.IsAcked(Older().sack, 0, id) <==> id == 1 {
      F.SackOfAcks(0, [1], id);
    }
  }

  // The same two packets leave a mark behind in one order and none in the other.
  lemma MarksDependOnOrder(n: nat)
    requires n > 1
    ensures !Tidy(AfterAll([Cumulative(n), Older()])) && Tidy(AfterAll([Older(), Cumulative(n)]))
  {
    AfterTwo(Cumulative(n), Older());
    AfterTwo(Older(), Cumulative(n));
    CumulativeOnly(n);
    OldAfterNew(Entry(n, {}));
    OldAfterNew(Entry(0, {}));
    OldFeedbackLeavesMarks(Updated(Entry(0, {}), Older()), Cumulative(n));
  }

  // ---------------------------------------------------------------- the state the encoder keeps

  class ReceiverAckState {
    var receivers: Receivers

    constructor ()
      ensures receivers == map[]
    {
      receivers := map[];
    }

    method Update(rid: nat, pkt: F.FeedbackPacket)
      modifies this
      ensures receivers == old(receivers)[rid := Updated(EntryOf(old(receivers), rid), pkt)]
    {
      var entry := EntryOf(receivers, rid);
      if pkt.firstSrcId > entry.cumulative {
        entry := entry.(cumulative := pkt.firstSrcId);
        entry := entry.(sack := set id | id in entry.sack && id >= entry.cumulative);
      }
      entry := AddAll(entry, F.AckedIds(pkt.sack, pkt.firstSrcId));
      entry := ClimbAll(entry);
      receivers := receivers[rid := entry];
    }

    static method AddAll(e: Entry, ids: seq<nat>) returns (r: Entry)
      ensures r == Entry(e.cumulative, e.sack + Members(ids))
    {
      r := e;
      for i := 0 to |ids|
        invariant r == Entry(e.cumulative, e.sack + Members(ids[..i]))
      {
        r := r.(sack := r.sack + {ids[i]});
        assert Members(ids[..i + 1]) == Members(ids[..i]) + {ids[i]};
      }
      assert ids[..|ids|] == ids;
    }

    static method ClimbAll(e: Entry) returns (r: Entry)
      ensures r == Climb(e)
    {
      r := e;
      while r.cumulative in r.sack
        invariant Climb(r) == Climb(e)
        decreases |r.sack|
      {
        r := Entry(r.cumulative + 1, r.sack - {r.cumulative});
      }
    }
  }

  function EntryOf(receivers: Receivers, rid: nat): Entry {
    if rid in receivers then receivers[rid] else Entry(0, {})
  }

  // ---------------------------------------------------------------- window policies

  datatype WindowPolicy = AnyAck | AllAck | QuorumAck(quorum: nat)

  function AckedBy(receivers: Receivers, id: nat): set<nat> {
    set rid | rid in receivers && IsAcked(receivers, rid, id)
  }

  predicate Drops(policy: WindowPolicy, receivers: Receivers, id: nat) {
    match policy
    case AnyAck => exists rid :: rid in receivers && IsAcked(receivers, rid, id)
    case AllAck => receivers != map[] && forall rid :: rid in receivers ==> IsAcked(receivers, rid, id)
    case QuorumAck(quorum) => |AckedBy(receivers, id)| >= quorum
  }

  // The ids of the window that the policy drops, in the order of the window.
  function SymbolsToRemove(policy: WindowPolicy, receivers: Receivers, ids: seq<nat>): (r: seq<nat>)
    ensures forall id :: id in r <==> id in ids && Drops(policy, receivers, id)
  {
    if ids == [] then []
    else
      var init, last := ids[..|ids| - 1], ids[|ids| - 1];
      var before := SymbolsToRemove(policy, receivers, init);
      assert forall id :: id in ids <==> id in init || id == last;
      if Drops(policy, receivers, last) then before + [last] else before
  }

  // A quorum of one is the any-policy, a quorum of everybody the all-policy.
  lemma QuorumExtremes(receivers: Receivers, id: nat)
    ensures Drops(QuorumAck(1), receivers, id) <==> Drops(AnyAck, receivers, id)
    ensures receivers != map[] ==>
      (Drops(QuorumAck(|receivers|), receivers, id) <==> Drops(AllAck, receivers, id))
  {
    var s := AckedBy(receivers, id);
    if Drops(AnyAck, receivers, id) {
      var rid :| rid in receivers && IsAcked(receivers, rid, id);
      assert rid in s;
    } else {
      assert s == {};
    }
    assert s <= receivers.Keys;
    assert |receivers| == |receivers.Keys|;
    if |s| >= |receivers| {
      SubsetFull(s, receivers.Keys);
    }
    if Drops(AllAck, receivers, id) {
      assert s == receivers.Keys;
    }
  }

  lemma SubsetFull<V>(s: set<V>, t: set<V>)
    requires s <= t && |s| >= |t|
    ensures s == t
  {
    assert t == s + (t - s);
    assert |t| == |s| + |t - s|;
  }

  // A policy drops unacknowledged symbols exactly when its quorum is zero.
  lemma DropsUnacked(policy: WindowPolicy)
    ensures (exists receivers: Receivers, id :: Drops(policy, receivers, id) && AckedBy(receivers, id) == {})
      <==> policy == QuorumAck(0)
  {
    if policy == QuorumAck(0) {
      assert AckedBy(map[], 0) == {};
      assert Drops(policy, map[], 0);
    } else {
      forall receivers: Receivers, id | Drops(policy, receivers, id) ensures AckedBy(receivers, id) != {} {
        if policy == AnyAck || policy == AllAck {
          var rid :| rid in receivers && IsAcked(receivers, rid, id);
          assert rid in AckedBy(receivers, id);
        }
      }
    }
  }
}
