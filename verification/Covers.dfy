// What each variant of generate_coded covers, and in which order.

module Covers {
  import opened Fields
  import opened Keys
  import opened Counting
  import opened Elimination
  import opened Equations
  import opened Delivery
  import opened Windows
  import opened Decoding
  import opened Exactness
  import opened Guarantees
  import opened Duplicates
  import opened Encoding
  import opened Sessions
  import opened EndToEnd
  import opened Wires
  import Acks
  import I = IdStorage

  ghost predicate NeverDescends(ids: seq<nat>) {
    forall i, j :: 0 <= i < j < |ids| ==> ids[i] <= ids[j]
  }

  // ---------------------------------------------------------------- lists and their filters

  lemma {:induction false} MissingAscends(receivers: Acks.Receivers, rid: nat, window: seq<nat>)
    requires Ascending(window)
    ensures Ascending(Missing(receivers, rid, window))
  {
    if window != [] {
      var init, last := window[..|window| - 1], window[|window| - 1];
      MissingAscends(receivers, rid, init);
      LargerAfter(Missing(receivers, rid, init), last);
    }
  }

  lemma LargerAfter(ids: seq<nat>, last: nat)
    requires Ascending(ids)
    requires forall id :: id in ids ==> id < last
    ensures Ascending(ids + [last])
  {
    assert forall i :: 0 <= i < |ids| ==> ids[i] in ids;
  }

  lemma {:induction false} AskedRises(window: seq<nat>, ids: seq<nat>)
    requires NeverDescends(ids)
    ensures NeverDescends(Asked(window, ids))
  {
    if ids != [] {
      var init, last := ids[..|ids| - 1], ids[|ids| - 1];
      AskedRises(window, init);
      var r := Asked(window, init);
      assert forall i :: 0 <= i < |r| ==> r[i] in r;
      assert forall id :: id in r ==> id <= last;
    }
  }

  lemma AskedLast(window: seq<nat>, init: seq<nat>, last: nat)
    ensures Asked(window, init + [last]) == Asked(window, init) + (if last in window then [last] else [])
  {
    assert (init + [last])[..|init|] == init;
  }

  // A listed cover keeps the caller's order: a list in two parts gives the covers of the two, one after
  // the other, and a list that the window holds is its own cover.
  lemma {:induction false} AskedJoins(window: seq<nat>, ids: seq<nat>, more: seq<nat>)
    ensures Asked(window, ids + more) == Asked(window, ids) + Asked(window, more)
  {
    if more == [] {
      assert ids + more == ids;
    } else {
      var init, last := more[..|more| - 1], more[|more| - 1];
      AskedJoins(window, ids, init);
      assert ids + more == ids + init + [last] && more == init + [last];
      AskedLast(window, ids + init, last);
      AskedLast(window, init, last);
    }
  }

  lemma {:induction false} AskedAll(window: seq<nat>, ids: seq<nat>)
    requires forall id :: id in ids ==> id in window
    ensures Asked(window, ids) == ids
  {
    if ids != [] {
      var init, last := ids[..|ids| - 1], ids[|ids| - 1];
      assert ids == init + [last];
      AskedAll(window, init);
      AskedLast(window, init, last);
    }
  }

  // The ids of the window that are larger.
  ghost function Larger<T>(w: Window<T>, id: nat): set<nat> {
    set j | j in WindowIds(w) && j > id
  }

  lemma LargerThan<T>(w: Window<T>, k: nat)
    requires Orderly(w) && k < |w.symbols|
    ensures |Larger(w, w.symbols[k].id)| == |w.symbols| - k - 1
  {
    var ids := IdsOf(w.symbols);
    var after := ids[k + 1..];
    WindowDistinct(w);
    assert Distinct(after) by {
      forall i | 0 <= i < |after| ensures after[i] !in after[..i] {
        assert after[..i] == ids[k + 1..k + 1 + i];
      }
    }
    DistinctCard(after);
    assert Larger(w, ids[k]) == Elements(after) by {
      forall j | j in Larger(w, ids[k]) ensures j in after {
        var i :| 0 <= i < |w.symbols| && w.symbols[i].id == j;
        assert after[i - k - 1] == j;
      }
    }
  }

  lemma DropMember(ids: seq<nat>, from: nat, k: nat)
    requires Ascending(ids) && from <= |ids| && k < |ids|
    ensures ids[k] in ids[from..] <==> from <= k
  {
    if from <= k {
      assert ids[from..][k - from] == ids[k];
    }
  }

  lemma RecentIff<T>(w: Window<T>, n: nat, id: nat)
    requires Orderly(w)
    ensures id in Recent(IdsOf(w.symbols), n) <==> id in WindowIds(w) && |Larger(w, id)| < n
  {
    var ids := IdsOf(w.symbols);
    if id in WindowIds(w) {
      var k :| 0 <= k < |ids| && w.symbols[k].id == id;
      LargerThan(w, k);
      DropMember(ids, |ids| - |Recent(ids, n)|, k);
    }
  }

  // ---------------------------------------------------------------- one cover

  // The ids that a choice selects from the window.
  ghost predicate Selects<T>(st: EncoderState<T>, choice: Choice, id: nat) {
    match choice
    case Everything => true
    case Listed(ids) => id in ids
    case MostRecent(n) => |Larger(st.window, id)| < n
    case Unacked(rid) => !Acks.IsAcked(st.receivers, rid, id)
  }

  // The ids of the window that are selected; in ascending order, unless the caller lists them.
  lemma CoverIs<T>(st: EncoderState<T>, choice: Choice)
    requires Orderly(st.window)
    ensures forall id :: id in CoverOf(st, choice) <==> Contains(st.window, id) && Selects(st, choice, id)
    ensures !choice.Listed? ==> Ascending(CoverOf(st, choice))
    ensures choice.Listed? && NeverDescends(choice.ids) ==> NeverDescends(CoverOf(st, choice))
  {
    var ids := IdsOf(st.window.symbols);
    forall id ensures id in CoverOf(st, choice) <==> Contains(st.window, id) && Selects(st, choice, id) {
      ContainsIds(st.window, id);
      if choice.MostRecent? {
        RecentIff(st.window, choice.n, id);
      }
    }
    if choice.Unacked? {
      MissingAscends(st.receivers, choice.rid, ids);
    }
    if choice.Listed? && NeverDescends(choice.ids) {
      AskedRises(ids, choice.ids);
    }
  }

  // ---------------------------------------------------------------- sessions

  ghost predicate RisingOp<T>(op: Op<T>) {
    op.Generating? && op.choice.Listed? ==> NeverDescends(op.choice.ids)
  }

  // The caller's own lists, if any, never descend.
  ghost predicate RisingOps<T>(ops: seq<Op<T>>) {
    forall i :: 0 <= i < |ops| ==> RisingOp(ops[i])
  }

  ghost predicate RisingCover<T>(ids: seq<nat>, next: nat) {
    NeverDescends(ids) && forall id :: id in ids ==> id < next
  }

  // No cover sent so far descends, and all are over ids already in use.
  ghost predicate Rising<T>(s: Session<T>) {
    && s.state.window.nextId == |s.sources|
    && forall i :: 0 <= i < |s.log| && s.log[i].CodedPacket? ==> RisingCover<T>(s.log[i].ev.ids, |s.sources|)
  }

  lemma GenerateRises<T(!new)>(c: EncoderConfig<T>, s: Session<T>, choice: Choice)
    requires Built(c) && Sane(c, s.state.window) && Rising(s) && RisingOp<T>(Generating(choice))
    ensures Rising(Apply(c, s, Generating(choice)))
  {
    var cover := CoverOf(s.state, choice);
    FindsInWindow(c, s.state.window, cover);
    CoverIs(s.state, choice);
    VectorFormed(c, s.state.at, cover);
    assert RisingCover<T>(cover, |s.sources|) by {
      forall id | id in cover ensures id < |s.sources| {
        ContainsIds(s.state.window, id);
      }
    }
  }

  lemma MidRises<T(!new)>(c: EncoderConfig<T>, s: Session<T>, data: seq<T>)
    requires Built(c) && Sane(c, s.state.window) && Rising(s)
    ensures Rising(MidSubmit(c, s, data))
  {
    var r := MidSubmit(c, s, data);
    forall i | 0 <= i < |r.log| && r.log[i].CodedPacket? ensures RisingCover<T>(r.log[i].ev.ids, |r.sources|) {
      assert r.log[i] == s.log[i];
      assert RisingCover<T>(s.log[i].ev.ids, |s.sources|);
    }
  }

  lemma SubmitRises<T(!new)>(c: EncoderConfig<T>, s: Session<T>, data: seq<T>)
    requires Built(c) && Sane(c, s.state.window) && Rising(s)
    ensures Rising(Apply(c, s, Submitting(data)))
  {
    if Submit(c, s.state, data).Accepted? {
      forall t: Session<T> | Sane(c, t.state.window) && Rising(t) ensures Rising(Apply(c, t, Generating(Everything))) {
        GenerateRises(c, t, Everything);
      }
      MidRises(c, s, data);
      SubmitIsBurst(c, s, data);
      BurstKept(c, MidSubmit(c, s, data), Redundancy(c, s.state.fecCalls), t => Rising(t));
    }
  }

  // No cover of a session descends, if none that the caller lists does.
  lemma {:induction false} SessionRises<T(!new)>(c: EncoderConfig<T>, ops: seq<Op<T>>)
    requires Built(c) && RisingOps(ops)
    ensures Rising(After(c, ops))
  {
    if ops != [] {
      var init, op := ops[..|ops| - 1], ops[|ops| - 1];
      SessionRises(c, init);
      var s := After(c, init);
      match op
      case Submitting(data) => SubmitRises(c, s, data);
      case Generating(choice) =>
        assert RisingOp(op);
        GenerateRises(c, s, choice);
      case Hearing(rid, pkt) =>
    }
  }

  // ---------------------------------------------------------------- sessions that the wire carries

  // What a caller can see to: a window of at most 255 symbols; lists without repeats that never descend;
  // and at most 65536 symbols, so that no step is too large for 16 bits.
  ghost predicate Careful<T>(c: EncoderConfig<T>, ops: seq<Op<T>>) {
    c.capacity <= 255 && PlainOps(ops) && RisingOps(ops)
  }

  lemma CarefulIsNarrow<T(!new)>(c: EncoderConfig<T>, ops: seq<Op<T>>)
    requires Built(c) && Careful(c, ops) && |After(c, ops).sources| <= 65536
    ensures NarrowLog(After(c, ops).log)
  {
    var s := After(c, ops);
    SessionFits(c, ops);
    SessionRises(c, ops);
    forall i | 0 <= i < |s.log| && s.log[i].CodedPacket? ensures Narrow(s.log[i].ev.ids) {
      assert RisingCover<T>(s.log[i].ev.ids, |s.sources|);
      ShortSteps(s.log[i].ev.ids);
    }
  }

  lemma ShortSteps(ids: seq<nat>)
    requires NeverDescends(ids) && forall id :: id in ids ==> id < 65536
    ensures I.SmallDeltas(ids)
  {
    forall i | 0 <= i < |ids| - 1 ensures I.Near(ids, i) {
      assert ids[i + 1] in ids;
    }
  }

  lemma PlainIsClean<T>(ops: seq<Op<T>>)
    requires PlainOps(ops)
    ensures CleanOps(ops)
  {
    forall i | 0 <= i < |ops| && ops[i].Generating? ensures CleanChoice(ops[i].choice) {
      if ops[i].choice.Listed? {
        DistinctOdd(ops[i].choice.ids);
      }
    }
  }

  // From submission through the bytes of the vector to delivery, with nothing asked of what was sent.
  lemma CarefulExact<T(!new)>(
    c: EncoderConfig<T>, dc: Config<T>, k: Codec<T>, ops: seq<Op<T>>, pick: seq<nat>, arrivals: seq<Arrival<T>>, i: nat)
    requires Built(c) && Matches(c, dc) && Lossless(k)
    requires Careful(c, ops) && |After(c, ops).sources| <= 65536
    requires Carried(k, After(c, ops).log, pick, arrivals)
    requires forall j :: 0 <= j < |arrivals| ==> Acceptable(dc, arrivals[j])
    requires i < |Run(dc, Start(), arrivals).events| && Run(dc, Start(), arrivals).events[i].SourceReady?
    ensures var sym := Run(dc, Start(), arrivals).events[i].sym;
            sym.id < |After(c, ops).sources| && sym.data == After(c, ops).sources[sym.id]
  {
    CarefulIsNarrow(c, ops);
    PlainIsClean(ops);
    EndToEndExact(c, dc, k, ops, pick, arrivals, i);
  }
}
