// From submission to delivery: a session of the encoder, a lossy channel, a run of the decoder.

module EndToEnd {
  import opened Fields
  import opened Keys
  import opened Rows
  import opened Elimination
  import opened Equations
  import opened Coefficients
  import opened Windows
  import opened FecRates
  import opened Delivery
  import opened Decoding
  import opened Exactness
  import opened Streams
  import opened Guarantees
  import opened Encoding
  import opened Sessions

  // ---------------------------------------------------------------- exact delivery

  // What was accepted, and a filler beyond.
  ghost function Accepted<T>(c: EncoderConfig<T>, sources: seq<seq<T>>, filler: T): Sources<T> {
    (id: nat) => if id < |sources| then sources[id] else seq(c.symbolSize, _ => filler)
  }

  lemma {:induction false} SourcesSizedAlways<T(!new)>(c: EncoderConfig<T>, ops: seq<Op<T>>)
    requires Built(c)
    ensures forall i :: 0 <= i < |After(c, ops).sources| ==> |After(c, ops).sources[i]| == c.symbolSize
  {
    if ops != [] {
      SourcesSizedAlways(c, ops[..|ops| - 1]);
    }
  }

  lemma DeliversFiller<T(!new)>(
    c: EncoderConfig<T>, dc: Config<T>, ops: seq<Op<T>>, pick: seq<nat>, arrivals: seq<Arrival<T>>, filler: T)
    requires Built(c) && Matches(c, dc) && CleanOps(ops) && Picked(After(c, ops).log, pick, arrivals)
    ensures forall k :: 0 <= k < |arrivals| ==> Acceptable(dc, arrivals[k])
    ensures EventsRight(Run(dc, Start(), arrivals).events, Accepted(c, After(c, ops).sources, filler))
  {
    var s := After(c, ops);
    var X := Accepted(c, s.sources, filler);
    SourcesSizedAlways(c, ops);
    SessionFaithful(c, dc, X, ops);
    LossyChannelExact(dc, X, s.log, pick, arrivals);
  }

  lemma FillersDiffer<T(!new)>(c: EncoderConfig<T>, sources: seq<seq<T>>, id: nat)
    requires Built(c)
    ensures id >= |sources| ==> Accepted(c, sources, c.F.zero)(id) != Accepted(c, sources, c.F.one)(id)
  {
    if id >= |sources| {
      assert Accepted(c, sources, c.F.zero)(id)[0] == c.F.zero;
      assert Accepted(c, sources, c.F.one)(id)[0] == c.F.one;
    }
  }

  // For every sequence of calls on the encoder and every channel that keeps the order and hands over
  // packets as they were sent (Wires.dfy says when), each symbol the decoder delivers was accepted by
  // the encoder under that id, with exactly that data.
  lemma PacketsExact<T(!new)>(
    c: EncoderConfig<T>, dc: Config<T>, ops: seq<Op<T>>, pick: seq<nat>, arrivals: seq<Arrival<T>>, i: nat)
    requires Built(c) && Matches(c, dc) && CleanOps(ops) && Picked(After(c, ops).log, pick, arrivals)
    requires forall k :: 0 <= k < |arrivals| ==> Acceptable(dc, arrivals[k])
    requires i < |Run(dc, Start(), arrivals).events| && Run(dc, Start(), arrivals).events[i].SourceReady?
    ensures var sym := Run(dc, Start(), arrivals).events[i].sym;
            sym.id < |After(c, ops).sources| && sym.data == After(c, ops).sources[sym.id]
  {
    var sym, sources := Run(dc, Start(), arrivals).events[i].sym, After(c, ops).sources;
    DeliversFiller(c, dc, ops, pick, arrivals, c.F.zero);
    DeliversFiller(c, dc, ops, pick, arrivals, c.F.one);
    FillersDiffer(c, sources, sym.id);
    assert sym.data == Accepted(c, sources, c.F.zero)(sym.id) == Accepted(c, sources, c.F.one)(sym.id);
  }

  // ---------------------------------------------------------------- labels and redundancy

  ghost function CodedIn<T>(log: seq<Packet<T>>): nat {
    if log == [] then 0 else CodedIn(log[..|log| - 1]) + if log[|log| - 1].CodedPacket? then 1 else 0
  }

  ghost predicate LabelledAt<T>(c: EncoderConfig<T>, log: seq<Packet<T>>, i: nat)
    requires i < |log|
  {
    log[i].CodedPacket? ==>
      log[i].ev == MakeVector(c, LabelAfter(c.F.order, c.strategy, CodedIn(log[..i])), log[i].ev.ids)
  }

  // The k-th coded packet carries the k-th label.
  ghost predicate Labelled<T>(c: EncoderConfig<T>, s: Session<T>) {
    && s.state.used == CodedIn(s.log)
    && s.state.at == LabelAfter(c.F.order, c.strategy, s.state.used)
    && forall i :: 0 <= i < |s.log| ==> LabelledAt(c, s.log, i)
  }

  lemma AppendLabelled<T>(c: EncoderConfig<T>, log: seq<Packet<T>>, packet: Packet<T>)
    requires forall i :: 0 <= i < |log| ==> LabelledAt(c, log, i)
    requires packet.CodedPacket? ==>
      packet.ev == MakeVector(c, LabelAfter(c.F.order, c.strategy, CodedIn(log)), packet.ev.ids)
    ensures var longer := log + [packet];
            && (forall i :: 0 <= i < |longer| ==> LabelledAt(c, longer, i))
            && CodedIn(longer) == CodedIn(log) + if packet.CodedPacket? then 1 else 0
  {
    var longer := log + [packet];
    assert longer[..|log|] == log;
    forall i | 0 <= i < |longer| ensures LabelledAt(c, longer, i) {
      if i < |log| {
        assert longer[..i] == log[..i] && LabelledAt(c, log, i);
      }
    }
  }

  lemma EmitLabelled<T(!new)>(c: EncoderConfig<T>, s: Session<T>, cover: seq<nat>)
    requires Built(c) && Sane(c, s.state.window) && Labelled(c, s) && cover != [] && Holds(c, s.state.window, cover)
    ensures var o := Emit(c, s.state, cover);
            Labelled(c, s.(state := o.state, log := s.log + o.packets))
  {
    VectorFormed(c, s.state.at, cover);
    AppendLabelled(c, s.log, MakePacket(c, s.state, cover));
  }

  lemma GenerateLabelled<T(!new)>(c: EncoderConfig<T>, s: Session<T>, choice: Choice)
    requires Built(c) && Sane(c, s.state.window) && Labelled(c, s)
    ensures Labelled(c, Apply(c, s, Generating(choice)))
  {
    var cover := CoverOf(s.state, choice);
    FindsInWindow(c, s.state.window, cover);
    if cover != [] {
      EmitLabelled(c, s, cover);
    } else {
      assert s.log + [] == s.log;
    }
  }

  lemma {:induction false} BurstLabelled<T(!new)>(c: EncoderConfig<T>, s: Session<T>, n: nat)
    requires Built(c) && Sane(c, s.state.window) && Labelled(c, s)
    ensures Labelled(c, Bursted(c, s, n))
    ensures s.state.window.symbols != [] ==> Bursted(c, s, n).state.used == s.state.used + n
  {
    if n > 0 {
      BurstLabelled(c, s, n - 1);
      BurstStep(c, s, n);
      GenerateLabelled(c, Bursted(c, s, n - 1), Everything);
    } else {
      NoBurst(c, s, n);
    }
  }

  lemma SubmitLabelled<T(!new)>(c: EncoderConfig<T>, s: Session<T>, data: seq<T>)
    requires Built(c) && Sane(c, s.state.window) && Labelled(c, s)
    ensures Labelled(c, Apply(c, s, Submitting(data)))
    ensures Submit(c, s.state, data).Accepted? ==>
      Apply(c, s, Submitting(data)).state.used == s.state.used + Redundancy(c, s.state.fecCalls)
  {
    if Submit(c, s.state, data).Accepted? {
      var mid := MidSubmit(c, s, data);
      SubmitIsBurst(c, s, data);
      AppendLabelled(c, s.log, SourcePacket(s.state.window.nextId, data));
      BurstLabelled(c, mid, Redundancy(c, s.state.fecCalls));
    }
  }

  lemma {:induction false} SessionLabelled<T(!new)>(c: EncoderConfig<T>, ops: seq<Op<T>>)
    requires Built(c)
    ensures Labelled(c, After(c, ops))
  {
    if ops != [] {
      var s, op := After(c, ops[..|ops| - 1]), ops[|ops| - 1];
      SessionLabelled(c, ops[..|ops| - 1]);
      match op
      case Submitting(data) => SubmitLabelled(c, s, data);
      case Generating(choice) => GenerateLabelled(c, s, choice);
      case Hearing(_, _) =>
    }
  }

  lemma SubmitCalls<T(!new)>(c: EncoderConfig<T>, s: Session<T>, data: seq<T>)
    requires Built(c) && Sane(c, s.state.window) && Submit(c, s.state, data).Accepted?
    ensures Apply(c, s, Submitting(data)).state.fecCalls == s.state.fecCalls + 1
  {
    SubmitIsBurst(c, s, data);
  }

  // The counters: one call of the controller for each symbol, and its total so far.
  ghost predicate Counted<T>(c: EncoderConfig<T>, s: Session<T>)
    requires c.denom > 0
  {
    s.state.fecCalls == |s.sources| && s.state.used == TotalAfter(c.numer, c.denom, |s.sources|)
  }

  lemma SubmitCounted<T(!new)>(c: EncoderConfig<T>, s: Session<T>, data: seq<T>)
    requires Built(c) && Sane(c, s.state.window) && Labelled(c, s) && Counted(c, s)
    ensures Counted(c, Apply(c, s, Submitting(data)))
  {
    if Submit(c, s.state, data).Accepted? {
      SubmitLabelled(c, s, data);
      SubmitCalls(c, s, data);
    }
  }

  lemma {:induction false} SessionCounted<T(!new)>(c: EncoderConfig<T>, ops: seq<Op<T>>)
    requires Built(c) && forall i :: 0 <= i < |ops| ==> !ops[i].Generating?
    ensures Counted(c, After(c, ops))
  {
    if ops != [] {
      var init, op := ops[..|ops| - 1], ops[|ops| - 1];
      SessionCounted(c, init);
      if op.Submitting? {
        SessionLabelled(c, init);
        SubmitCounted(c, After(c, init), op.data);
      }
    }
  }

  // When coded packets are sent on submission only, their number is exact at every moment: the
  // rate times the symbols accepted, rounded down.
  lemma RedundancyIsExact<T(!new)>(c: EncoderConfig<T>, ops: seq<Op<T>>)
    requires Built(c) && forall i :: 0 <= i < |ops| ==> !ops[i].Generating?
    ensures var s := After(c, ops);
            && CodedIn(s.log) == |s.sources| * c.numer / c.denom
            && s.state.fecCalls == |s.sources|
  {
    SessionLabelled(c, ops);
    SessionCounted(c, ops);
    TotalIsExact(c.numer, c.denom, |After(c, ops).sources|);
  }

  // ---------------------------------------------------------------- recovery of what was lost

  // A coded packet over all of `lost` and otherwise over symbols that arrived.
  ghost predicate Spans<T>(arrivals: seq<Arrival<T>>, k: nat, lost: seq<nat>, n: nat) {
    && k < |arrivals| && arrivals[k].packet.CodedPacket?
    && (forall i :: 0 <= i < |lost| ==> lost[i] in arrivals[k].packet.ev.ids)
    && (forall id :: id in arrivals[k].packet.ev.ids && id !in lost ==> Received(arrivals, id, n))
  }

  // The labels of the coded packets with these numbers in a session.
  ghost function LabelsOf(order: nat, ns: seq<nat>): (r: seq<Label>)
    ensures |r| == |ns|
  {
    seq(|ns|, j requires 0 <= j < |ns| => LabelAfter(order, CauchyStrategy, ns[j]))
  }

  lemma LoggedCoefs<T(!new)>(c: EncoderConfig<T>, s: Session<T>, i: nat, at: Label)
    requires IsGenerated(c.F) && c.strategy == CauchyStrategy
    requires Labelled(c, s) && i < |s.log| && s.log[i].CodedPacket?
    requires at == LabelAfter(c.F.order, CauchyStrategy, CodedIn(s.log[..i]))
    ensures Equations.WellFormed(s.log[i].ev)
    ensures s.log[i].ev.ids != [] ==> HasCoefs(c.F, s.log[i].ev, CauchyCoefs(c.F, at))
  {
    assert LabelledAt(c, s.log, i);
    forall id: nat ensures CauchyCoefs(c.F, at)(id) != c.F.zero {
      CauchyNonzero(c.F, id, at.codedId, at.generation);
    }
  }

  // With Cauchy coefficients over either field: k lost symbols with different points come back from any
  // k coded packets over them with different points.
  lemma PointsRecover<T(!new)>(
    c: EncoderConfig<T>, dc: Config<T>, ops: seq<Op<T>>, pick: seq<nat>, arrivals: seq<Arrival<T>>,
    missing: set<nat>, lost: seq<nat>, hits: seq<nat>, ns: seq<nat>)
    requires Built(c) && IsGenerated(c.F) && c.strategy == CauchyStrategy
    requires Matches(c, dc) && CleanOps(ops) && Picked(After(c, ops).log, pick, arrivals)
    requires AllLacking(arrivals, missing, c.symbolSize) && |missing| <= dc.maxRows && dc.maxRows > 0
    requires forall k :: 0 <= k < |arrivals| ==> Acceptable(dc, arrivals[k])
    requires |hits| == |lost| == |ns| && DistinctMod(lost, Cycle(c.F.order))
    requires forall j :: 0 <= j < |hits| ==>
      Spans(arrivals, hits[j], lost, c.symbolSize) && ns[j] == CodedIn(After(c, ops).log[..pick[hits[j]]])
    requires DistinctPoints(c.F.order, LabelsOf(c.F.order, ns))
    ensures forall i :: 0 <= i < |lost| ==> lost[i] in Run(dc, Start(), arrivals).state.known
  {
    var s := After(c, ops);
    var X := Accepted(c, s.sources, c.F.zero);
    SourcesSizedAlways(c, ops);
    SessionFaithful(c, dc, X, ops);
    SessionLabelled(c, ops);
    LossyChannelRoomy(dc, X, s.log, pick, arrivals, missing);
    var labels := LabelsOf(c.F.order, ns);
    forall j | 0 <= j < |hits|
      ensures Repairs(dc, arrivals, hits[j], lost, CauchyCoefs(dc.F, labels[j]))
    {
      SpanRepairs(c, dc, X, s, pick, arrivals, lost, hits[j], j, labels[j]);
    }
    CauchyRecovers(dc, X, arrivals, lost, hits, labels);
  }

  lemma SpanRepairs<T(!new)>(
    c: EncoderConfig<T>, dc: Config<T>, X: Sources<T>, s: Session<T>, pick: seq<nat>, arrivals: seq<Arrival<T>>,
    lost: seq<nat>, k: nat, j: nat, at: Label)
    requires IsGenerated(c.F) && c.strategy == CauchyStrategy && Matches(c, dc)
    requires Labelled(c, s) && IsStream(dc, X, s.log) && Picked(s.log, pick, arrivals)
    requires j < |lost| && Spans(arrivals, k, lost, c.symbolSize)
    requires at == LabelAfter(c.F.order, CauchyStrategy, CodedIn(s.log[..pick[k]]))
    ensures Repairs(dc, arrivals, k, lost, CauchyCoefs(dc.F, at))
  {
    assert lost[j] in arrivals[k].packet.ev.ids;
    LoggedCoefs(c, s, pick[k], at);
    assert Streams.Follows(dc, X, s.log[..pick[k]], s.log[pick[k]]);
  }

  // Over GF(2^8): from any k of 121 consecutive coded packets, whatever the generation boundaries between.
  lemma PacketsRecover<T(!new)>(
    c: EncoderConfig<T>, dc: Config<T>, ops: seq<Op<T>>, pick: seq<nat>, arrivals: seq<Arrival<T>>,
    missing: set<nat>, lost: seq<nat>, hits: seq<nat>, ns: seq<nat>, first: nat)
    requires Built(c) && IsGenerated(c.F) && c.F.order == 256 && c.strategy == CauchyStrategy
    requires Matches(c, dc) && CleanOps(ops) && Picked(After(c, ops).log, pick, arrivals)
    requires AllLacking(arrivals, missing, c.symbolSize) && |missing| <= dc.maxRows && dc.maxRows > 0
    requires forall k :: 0 <= k < |arrivals| ==> Acceptable(dc, arrivals[k])
    requires |hits| == |lost| == |ns| && DistinctMod(lost, 128)
    requires forall j :: 0 <= j < |hits| ==>
      Spans(arrivals, hits[j], lost, c.symbolSize) && ns[j] == CodedIn(After(c, ops).log[..pick[hits[j]]])
    requires Distinct(ns) && forall j :: 0 <= j < |ns| ==> first <= ns[j] <= first + 120
    ensures forall i :: 0 <= i < |lost| ==> lost[i] in Run(dc, Start(), arrivals).state.known
  {
    ConsecutiveDistinct(ns, first);
    forall j | 0 <= j < |ns| ensures LabelsOf(256, ns)[j] == NthLabels(ns)[j] {
      CauchyLabels(ns[j]);
    }
    assert LabelsOf(256, ns) == NthLabels(ns);
    PointsRecover(c, dc, ops, pick, arrivals, missing, lost, hits, ns);
  }

  // Numbers among four consecutive ones, and no two of them two apart with a wrap of the generation between.
  ghost predicate Close16(ns: seq<nat>, first: nat) {
    && Distinct(ns)
    && (forall j :: 0 <= j < |ns| ==> first <= ns[j] <= first + 3)
    && (forall i, j :: 0 <= i < |ns| && 0 <= j < |ns| && ns[j] == ns[i] + 2 ==> ns[i] / 7 / 256 == ns[j] / 7 / 256)
  }

  lemma CloseDistinct16(ns: seq<nat>, first: nat)
    requires Close16(ns, first)
    ensures DistinctPoints(16, LabelsOf(16, ns))
  {
    forall i, j | 0 <= i < j < |ns| ensures NthPoint16(ns[i]) != NthPoint16(ns[j]) {
      assert ns[j] !in ns[..j] && ns[i] in ns[..j];
      if ns[i] < ns[j] {
        ConsecutivePoints16(ns[i], ns[j]);
      } else {
        ConsecutivePoints16(ns[j], ns[i]);
      }
    }
    forall j | 0 <= j < |ns| ensures LabelsOf(16, ns)[j] == NthLabel16(ns[j]) {
      CauchyLabels16(ns[j]);
    }
  }

  // Over GF(2^4): from any k of 4 consecutive coded packets, if not two apart across a wrap.
  lemma PacketsRecover16<T(!new)>(
    c: EncoderConfig<T>, dc: Config<T>, ops: seq<Op<T>>, pick: seq<nat>, arrivals: seq<Arrival<T>>,
    missing: set<nat>, lost: seq<nat>, hits: seq<nat>, ns: seq<nat>, first: nat)
    requires Built(c) && IsGenerated(c.F) && c.F.order == 16 && c.strategy == CauchyStrategy
    requires Matches(c, dc) && CleanOps(ops) && Picked(After(c, ops).log, pick, arrivals)
    requires AllLacking(arrivals, missing, c.symbolSize) && |missing| <= dc.maxRows && dc.maxRows > 0
    requires forall k :: 0 <= k < |arrivals| ==> Acceptable(dc, arrivals[k])
    requires |hits| == |lost| == |ns| && DistinctMod(lost, 7)
    requires forall j :: 0 <= j < |hits| ==>
      Spans(arrivals, hits[j], lost, c.symbolSize) && ns[j] == CodedIn(After(c, ops).log[..pick[hits[j]]])
    requires Close16(ns, first)
    ensures forall i :: 0 <= i < |lost| ==> lost[i] in Run(dc, Start(), arrivals).state.known
  {
    CloseDistinct16(ns, first);
    PointsRecover(c, dc, ops, pick, arrivals, missing, lost, hits, ns);
  }
}
