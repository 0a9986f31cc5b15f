// The channel between encoder and decoder as bytes: what of a packet the decoder reads.

module Wires {
  import opened Bytes
  import opened Fields
  import opened Keys
  import opened Elimination
  import opened Equations
  import opened Decoding
  import opened Exactness
  import opened Streams
  import opened Guarantees
  import opened Encoding
  import opened Sessions
  import opened EndToEnd
  import Acks
  import Coefficients
  import Counting
  import I = IdStorage
  import W = VectorWire

  // ---------------------------------------------------------------- a vector as bytes

  // How coefficients are put into bytes, and taken out of them.
  datatype Codec<!T> = Codec(kind: W.FieldKind, pack: T -> Byte, unpack: Byte -> T)

  ghost predicate Lossless<T(!new)>(k: Codec<T>) {
    && (forall x :: k.unpack(k.pack(x)) == x)
    && (k.kind == W.Gf16 ==> forall x :: k.pack(x) == W.Wide(Low(k.pack(x))))
  }

  ghost function ToWire<T>(k: Codec<T>, ev: EncodingVector<T>): W.WireVector {
    W.WireVector(k.kind, ev.codedId, Octet(ev.generation), I.BestFor(ev.ids), ev.ids,
                 seq(|ev.coefs|, i requires 0 <= i < |ev.coefs| => k.pack(ev.coefs[i])))
  }

  ghost function FromWire<T>(k: Codec<T>, w: W.WireVector): EncodingVector<T> {
    EncodingVector(w.codedId, ToNat(w.generation), w.ids,
                   seq(|w.coefs|, i requires 0 <= i < |w.coefs| => k.unpack(w.coefs[i])))
  }

  lemma ThereAndBack<T(!new)>(k: Codec<T>, ev: EncodingVector<T>)
    requires Lossless(k) && ev.generation < 256
    ensures FromWire(k, ToWire(k, ev)) == ev
  {
  }

  // The decoder reads `got` when the list of ids of ev is `idBits` and `rest` follows the vector.
  ghost predicate Reads<T>(
    k: Codec<T>, ev: EncodingVector<T>, idBits: seq<Byte>, rest: seq<Byte>, got: EncodingVector<T>)
    requires ev.ids != []
  {
    && I.Encodes(idBits, ev.ids, I.BestFor(ev.ids))
    && var r := W.Parsing(W.IdDecoder(), W.Layout(ToWire(k, ev), idBits) + rest, ev.codedId);
       r.Ok? && got == FromWire(k, r.ev)
  }

  // What the encoder can send: u32 ids in the caller's order, and coefficients for all of them or none.
  ghost predicate Sent<T>(ev: EncodingVector<T>) {
    && ev.ids != [] && I.Below32(ev.ids)
    && WellFormed(ev) && ev.generation < 256
  }

  // What one byte counts, in order and by steps that 16 bits can bridge.
  ghost predicate Narrow(ids: seq<nat>) {
    |ids| <= 255 && I.SmallDeltas(ids)
  }

  // What the decoder takes the vector for: the same, over the ids that the low halves of the deltas add up to.
  function Heard<T>(ev: EncodingVector<T>): EncodingVector<T> {
    ev.(ids := I.Summed(ev.ids))
  }

  // Of at most 255 ids the decoder reads just that, and there are bytes for it to read.
  lemma ReadsHeard<T(!new)>(
    k: Codec<T>, ev: EncodingVector<T>, idBits: seq<Byte>, rest: seq<Byte>, got: EncodingVector<T>)
    requires Lossless(k) && Sent(ev) && |ev.ids| <= 255 && I.Encodes(idBits, ev.ids, I.BestFor(ev.ids))
    ensures Reads(k, ev, idBits, rest, got) <==> got == Heard(ev)
  {
    SentDrafted(k, ev);
    W.ReadsSummed(ToWire(k, ev), idBits, rest);
    HeardBack(k, ev);
  }

  lemma HeardBack<T(!new)>(k: Codec<T>, ev: EncodingVector<T>)
    requires Lossless(k) && ev.generation < 256
    ensures FromWire(k, ToWire(k, ev).(ids := I.Summed(ev.ids))) == Heard(ev)
  {
    ThereAndBack(k, ev);
  }

  // The decoder reads what was sent exactly when the cover is narrow.
  lemma ReadsWholeIff<T(!new)>(k: Codec<T>, ev: EncodingVector<T>, idBits: seq<Byte>, rest: seq<Byte>)
    requires Lossless(k) && Sent(ev) && I.Encodes(idBits, ev.ids, I.BestFor(ev.ids))
    ensures Reads(k, ev, idBits, rest, ev) <==> Narrow(ev.ids)
    ensures forall got :: Reads(k, ev, idBits, rest, got) && Narrow(ev.ids) ==> got == ev
  {
    SentDrafted(k, ev);
    W.IntactIff(ToWire(k, ev), idBits, rest);
    ThereAndBack(k, ev);
  }

  lemma SentDrafted<T(!new)>(k: Codec<T>, ev: EncodingVector<T>)
    requires Lossless(k) && Sent(ev)
    ensures W.Drafted(ToWire(k, ev))
  {
  }

  // ---------------------------------------------------------------- packets

  ghost predicate Crosses<T(!new)>(k: Codec<T>, sent: Packet<T>, got: Packet<T>) {
    match sent
    case SourcePacket(id, data) => got == SourcePacket(id % 0x1_0000_0000, data)
    case CodedPacket(ev, payload) =>
      && ev.ids != [] && got.CodedPacket? && got.payload == payload
      && exists idBits, rest :: Reads(k, ev, idBits, rest, got.ev)
  }

  // Every coded packet over at most 255 ids crosses, and in one way.
  lemma CrossesHeard<T(!new)>(k: Codec<T>, ev: EncodingVector<T>, payload: seq<T>, got: Packet<T>)
    requires Lossless(k) && Sent(ev) && |ev.ids| <= 255
    ensures Crosses(k, CodedPacket(ev, payload), got) <==> got == CodedPacket(Heard(ev), payload)
  {
    var idBits := if I.BestFor(ev.ids) == I.Implicit then [] else I.ListBytes(I.Deltas(ev.ids));
    I.SomeEncodes(ev.ids);
    ReadsHeard(k, ev, idBits, [], Heard(ev));
    if Crosses(k, CodedPacket(ev, payload), got) {
      var bits, rest :| Reads(k, ev, bits, rest, got.ev);
      ReadsHeard(k, ev, bits, rest, got.ev);
    }
  }

  // Packets of the log in its order, some lost and some repeated, each as the decoder reads it.
  ghost predicate Carried<T(!new)>(k: Codec<T>, log: seq<Packet<T>>, pick: seq<nat>, arrivals: seq<Arrival<T>>) {
    && |pick| == |arrivals|
    && (forall i :: 0 <= i < |pick| ==> pick[i] < |log| && Crosses(k, log[pick[i]], arrivals[i].packet))
    && (forall i, j :: 0 <= i < j < |pick| ==> pick[i] <= pick[j])
  }

  ghost predicate NarrowLog<T>(log: seq<Packet<T>>) {
    forall i :: 0 <= i < |log| && log[i].CodedPacket? ==> Narrow(log[i].ev.ids)
  }

  lemma CrossesWhole<T(!new)>(k: Codec<T>, sent: Packet<T>, got: Packet<T>)
    requires Lossless(k) && Crosses(k, sent, got)
    requires sent.SourcePacket? ==> sent.id < 0x1_0000_0000
    requires sent.CodedPacket? ==> Narrow(sent.ev.ids) && Sent(sent.ev)
    ensures got == sent
  {
    if sent.CodedPacket? {
      var idBits, rest :| Reads(k, sent.ev, idBits, rest, got.ev);
      ReadsWholeIff(k, sent.ev, idBits, rest);
    }
  }

  // ---------------------------------------------------------------- sessions

  lemma {:induction false} GenerationSmall(order: nat, strategy: Strategy, n: nat)
    requires order > 2
    ensures LabelAfter(order, strategy, n).generation < 256
  {
    if n > 0 {
      GenerationSmall(order, strategy, n - 1);
    }
  }

  lemma {:induction false} CountAll<T>(log: seq<Packet<T>>, i: nat)
    requires i <= |log|
    ensures SourceCount(log[..i]) <= SourceCount(log)
    decreases |log| - i
  {
    CountGrows(log, i, |log|);
    assert log[..|log|] == log;
  }

  // ---------------------------------------------------------------- covers no wider than the window

  ghost predicate Fitting<T>(c: EncoderConfig<T>, s: Session<T>) {
    && |s.state.window.symbols| <= c.capacity
    && forall i :: 0 <= i < |s.log| && s.log[i].CodedPacket? ==> |s.log[i].ev.ids| <= c.capacity
  }

  lemma GenerateFits<T(!new)>(c: EncoderConfig<T>, s: Session<T>, choice: Choice)
    requires Built(c) && Sane(c, s.state.window) && Fitting(c, s) && PlainChoice(choice)
    ensures Fitting(c, Apply(c, s, Generating(choice)))
  {
    var cover := CoverOf(s.state, choice);
    FindsInWindow(c, s.state.window, cover);
    CoverDistinct(s.state, choice);
    Counting.DistinctFits(cover, IdsOf(s.state.window.symbols));
    VectorFormed(c, s.state.at, cover);
  }

  lemma MidFits<T(!new)>(c: EncoderConfig<T>, s: Session<T>, data: seq<T>)
    requires Built(c) && Sane(c, s.state.window) && Fitting(c, s)
    ensures Fitting(c, MidSubmit(c, s, data))
  {
    var r := MidSubmit(c, s, data);
    assert forall i :: 0 <= i < |r.log| && r.log[i].CodedPacket? ==> i < |s.log| && r.log[i] == s.log[i];
  }

  lemma SubmitFits<T(!new)>(c: EncoderConfig<T>, s: Session<T>, data: seq<T>)
    requires Built(c) && Sane(c, s.state.window) && Fitting(c, s)
    ensures Fitting(c, Apply(c, s, Submitting(data)))
  {
    if Submit(c, s.state, data).Accepted? {
      forall t: Session<T> | Sane(c, t.state.window) && Fitting(c, t)
        ensures Fitting(c, Apply(c, t, Generating(Everything)))
      {
        GenerateFits(c, t, Everything);
      }
      MidFits(c, s, data);
      SubmitIsBurst(c, s, data);
      BurstKept(c, MidSubmit(c, s, data), Redundancy(c, s.state.fecCalls), t => Fitting(c, t));
    }
  }

  ghost predicate PlainOps<T>(ops: seq<Op<T>>) {
    forall i :: 0 <= i < |ops| && ops[i].Generating? ==> PlainChoice(ops[i].choice)
  }

  // Without repeats no cover is wider than the capacity of the window: 255 is a safe capacity.
  lemma {:induction false} SessionFits<T(!new)>(c: EncoderConfig<T>, ops: seq<Op<T>>)
    requires Built(c) && PlainOps(ops)
    ensures Fitting(c, After(c, ops))
  {
    if ops != [] {
      var init, op := ops[..|ops| - 1], ops[|ops| - 1];
      assert forall i :: 0 <= i < |init| ==> init[i] == ops[i];
      SessionFits(c, init);
      var s := After(c, init);
      match op
      case Submitting(data) => SubmitFits(c, s, data);
      case Generating(choice) => GenerateFits(c, s, choice);
      case Hearing(rid, pkt) =>
        var receivers := s.state.receivers[rid := Acks.Updated(Acks.EntryOf(s.state.receivers, rid), pkt)];
        WithoutSane(c, s.state.window, Acks.SymbolsToRemove(c.policy, receivers, IdsOf(s.state.window.symbols)));
    }
  }

  // ---------------------------------------------------------------- from call to delivery

  // With fewer than 2^32 symbols and narrow covers the decoder reads what the encoder sent.
  lemma CarriedIsPicked<T(!new)>(
    c: EncoderConfig<T>, dc: Config<T>, k: Codec<T>, ops: seq<Op<T>>, pick: seq<nat>, arrivals: seq<Arrival<T>>)
    requires Built(c) && Matches(c, dc) && CleanOps(ops) && Lossless(k)
    requires Carried(k, After(c, ops).log, pick, arrivals)
    requires NarrowLog(After(c, ops).log) && |After(c, ops).sources| < 0x1_0000_0000
    ensures Picked(After(c, ops).log, pick, arrivals)
  {
    var s := After(c, ops);
    SourcesSizedAlways(c, ops);
    SessionFaithful(c, dc, EndToEnd.Accepted(c, s.sources, c.F.zero), ops);
    SessionLabelled(c, ops);
    forall i | 0 <= i < |pick| ensures arrivals[i].packet == s.log[pick[i]] {
      LoggedCrosses(c, dc, k, EndToEnd.Accepted(c, s.sources, c.F.zero), s, pick[i], arrivals[i].packet);
    }
  }

  lemma LoggedCrosses<T(!new)>(
    c: EncoderConfig<T>, dc: Config<T>, k: Codec<T>, X: Sources<T>, s: Session<T>, i: nat, got: Packet<T>)
    requires Built(c) && Matches(c, dc) && Lossless(k) && Faithful(c, dc, X, s) && Labelled(c, s)
    requires NarrowLog(s.log) && |s.sources| < 0x1_0000_0000 && i < |s.log| && Crosses(k, s.log[i], got)
    ensures got == s.log[i]
  {
    var sent := s.log[i];
    assert Streams.Follows(dc, X, s.log[..i], sent);
    if sent.CodedPacket? {
      CountAll(s.log, i);
      LoggedIsSent(c, s, i, |s.sources|);
    } else {
      NextSourceCounts(s.log, i);
    }
    CrossesWhole(k, sent, got);
  }

  lemma LoggedIsSent<T(!new)>(c: EncoderConfig<T>, s: Session<T>, i: nat, bound: nat)
    requires Built(c) && Labelled(c, s) && i < |s.log| && s.log[i].CodedPacket?
    requires var ids := s.log[i].ev.ids; ids != [] && forall id :: id in ids ==> id < bound
    requires WellFormed(s.log[i].ev) && bound < 0x1_0000_0000
    ensures Sent(s.log[i].ev)
  {
    forall j | 0 <= j < |s.log[i].ev.ids| ensures s.log[i].ev.ids[j] < bound {
      assert s.log[i].ev.ids[j] in s.log[i].ev.ids;
    }
    assert LabelledAt(c, s.log, i);
    GenerationSmall(c.F.order, c.strategy, CodedIn(s.log[..i]));
  }

  lemma NextSourceCounts<T>(log: seq<Packet<T>>, i: nat)
    requires i < |log| && log[i].SourcePacket?
    ensures SourceCount(log[..i]) < SourceCount(log)
  {
    assert log[..i + 1][..i] == log[..i];
    CountAll(log, i + 1);
  }

  // For every sequence of calls on the encoder and every channel that keeps the order: if every cover
  // sent has at most 255 ids, never descends and has no jump of 65536, each symbol the decoder
  // delivers was accepted by the encoder under that id, with exactly that data.
  lemma EndToEndExact<T(!new)>(
    c: EncoderConfig<T>, dc: Config<T>, k: Codec<T>, ops: seq<Op<T>>, pick: seq<nat>, arrivals: seq<Arrival<T>>, i: nat)
    requires Built(c) && Matches(c, dc) && CleanOps(ops) && Lossless(k)
    requires Carried(k, After(c, ops).log, pick, arrivals)
    requires NarrowLog(After(c, ops).log) && |After(c, ops).sources| < 0x1_0000_0000
    requires forall j :: 0 <= j < |arrivals| ==> Acceptable(dc, arrivals[j])
    requires i < |Run(dc, Start(), arrivals).events| && Run(dc, Start(), arrivals).events[i].SourceReady?
    ensures var sym := Run(dc, Start(), arrivals).events[i].sym;
            sym.id < |After(c, ops).sources| && sym.data == After(c, ops).sources[sym.id]
  {
    CarriedIsPicked(c, dc, k, ops, pick, arrivals);
    PacketsExact(c, dc, ops, pick, arrivals, i);
  }

  // Recovery of what was lost, over the same channel.
  lemma SessionRecovers<T(!new)>(
    c: EncoderConfig<T>, dc: Config<T>, k: Codec<T>, ops: seq<Op<T>>, pick: seq<nat>, arrivals: seq<Arrival<T>>,
    missing: set<nat>, lost: seq<nat>, hits: seq<nat>, ns: seq<nat>, first: nat)
    requires Built(c) && IsGenerated(c.F) && c.F.order == 256 && c.strategy == CauchyStrategy
    requires Matches(c, dc) && CleanOps(ops) && Lossless(k) && Carried(k, After(c, ops).log, pick, arrivals)
    requires NarrowLog(After(c, ops).log) && |After(c, ops).sources| < 0x1_0000_0000
    requires AllLacking(arrivals, missing, c.symbolSize) && |missing| <= dc.maxRows && dc.maxRows > 0
    requires forall j :: 0 <= j < |arrivals| ==> Acceptable(dc, arrivals[j])
    requires |hits| == |lost| == |ns| && Coefficients.DistinctMod(lost, 128)
    requires forall j :: 0 <= j < |hits| ==>
      Spans(arrivals, hits[j], lost, c.symbolSize) && ns[j] == CodedIn(After(c, ops).log[..pick[hits[j]]])
    requires Distinct(ns) && forall j :: 0 <= j < |ns| ==> first <= ns[j] <= first + 120
    ensures forall j :: 0 <= j < |lost| ==> lost[j] in Run(dc, Start(), arrivals).state.known
  {
    CarriedIsPicked(c, dc, k, ops, pick, arrivals);
    PacketsRecover(c, dc, ops, pick, arrivals, missing, lost, hits, ns, first);
  }

  // The same over GF(2^4).
  lemma SessionRecovers16<T(!new)>(
    c: EncoderConfig<T>, dc: Config<T>, k: Codec<T>, ops: seq<Op<T>>, pick: seq<nat>, arrivals: seq<Arrival<T>>,
    missing: set<nat>, lost: seq<nat>, hits: seq<nat>, ns: seq<nat>, first: nat)
    requires Built(c) && IsGenerated(c.F) && c.F.order == 16 && c.strategy == CauchyStrategy
    requires Matches(c, dc) && CleanOps(ops) && Lossless(k) && Carried(k, After(c, ops).log, pick, arrivals)
    requires NarrowLog(After(c, ops).log) && |After(c, ops).sources| < 0x1_0000_0000
    requires AllLacking(arrivals, missing, c.symbolSize) && |missing| <= dc.maxRows && dc.maxRows > 0
    requires forall j :: 0 <= j < |arrivals| ==> Acceptable(dc, arrivals[j])
    requires |hits| == |lost| == |ns| && Coefficients.DistinctMod(lost, 7)
    requires forall j :: 0 <= j < |hits| ==>
      Spans(arrivals, hits[j], lost, c.symbolSize) && ns[j] == CodedIn(After(c, ops).log[..pick[hits[j]]])
    requires Close16(ns, first)
    ensures forall j :: 0 <= j < |lost| ==> lost[j] in Run(dc, Start(), arrivals).state.known
  {
    CarriedIsPicked(c, dc, k, ops, pick, arrivals);
    PacketsRecover16(c, dc, ops, pick, arrivals, missing, lost, hits, ns, first);
  }
}
