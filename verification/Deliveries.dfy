// Recovery, as the application sees it: what is recovered comes out.

module Deliveries {
  import opened Bytes
  import opened Fields
  import opened Keys
  import opened Elimination
  import opened Equations
  import opened Delivery
  import opened Decoding
  import opened Coefficients
  import opened Exactness
  import opened Streams
  import opened Guarantees
  import opened Encoding
  import opened Sessions
  import opened EndToEnd
  import opened Gaps
  import opened Settlement
  import opened LoneCoded
  import opened Wires

  // Every id up to this one is among the lost, or arrived, or was passed over by a cover.
  ghost predicate Reached<T>(arrivals: seq<Arrival<T>>, lost: seq<nat>, n: nat, id: nat) {
    forall j: nat :: j <= id ==> j in lost || Received(arrivals, j, n) || Passed(arrivals, n, j)
  }

  // With the lost symbols known again, everything up to the id is accounted for.
  lemma ReachedAccounted<T(!new)>(c: Config<T>, arrivals: seq<Arrival<T>>, lost: seq<nat>, id: nat)
    requires forall j :: 0 <= j < |arrivals| ==> Acceptable(c, arrivals[j])
    requires Reached(arrivals, lost, c.symbolSize, id)
    requires forall i :: 0 <= i < |lost| ==> lost[i] in Run(c, Start(), arrivals).state.known
    ensures Accounted(c, arrivals, id)
  {
    forall j: nat | j <= id ensures j in KnownAfter(c, arrivals) || Passed(arrivals, c.symbolSize, j) {
      if Received(arrivals, j, c.symbolSize) {
        ReceivedIsKnown(c, arrivals, j);
      }
    }
  }

  // What becomes of an id: it comes out, with the data of X, unless the last packet opened a gap before
  // it; and then it is delivered, unless some cover starts after it.
  ghost predicate ComesOut<T(!new)>(c: Config<T>, X: Sources<T>, arrivals: seq<Arrival<T>>, id: nat)
    requires forall j :: 0 <= j < |arrivals| ==> Acceptable(c, arrivals[j])
  {
    var events := Events(c, arrivals);
    && EventsRight(events, X)
    && (Delivered(events, id) || GivenUp(events, id) <==> !Stalls(events, id))
    && (!Passed(arrivals, c.symbolSize, id) ==> (Delivered(events, id) <==> !Stalls(events, id)))
  }

  lemma AccountedComesOut<T(!new)>(c: Config<T>, X: Sources<T>, arrivals: seq<Arrival<T>>, id: nat)
    requires forall j :: 0 <= j < |arrivals| ==> Acceptable(c, arrivals[j])
    requires EventsRight(Events(c, arrivals), X) && Accounted(c, arrivals, id)
    ensures ComesOut(c, X, arrivals, id)
  {
    OutIffNotStalled(c, arrivals, id);
    if !Passed(arrivals, c.symbolSize, id) {
      DeliveredIff(c, arrivals, id);
    }
  }

  // Cauchy packets over the lost symbols bring them out.
  lemma CauchyDelivers<T(!new)>(
    c: Config<T>, X: Sources<T>, arrivals: seq<Arrival<T>>, lost: seq<nat>, hits: seq<nat>, labels: seq<Label>, id: nat)
    requires IsGenerated(c.F) && SourcesSized(X, c.symbolSize) && c.symbolSize > 0
    requires forall i :: 0 <= i < |arrivals| ==> Acceptable(c, arrivals[i])
    requires GoodRun(c, X, arrivals, true)
    requires |hits| == |lost| == |labels|
    requires DistinctMod(lost, Cycle(c.F.order)) && DistinctPoints(c.F.order, labels)
    requires forall j :: 0 <= j < |hits| ==> Repairs(c, arrivals, hits[j], lost, CauchyCoefs(c.F, labels[j]))
    requires Reached(arrivals, lost, c.symbolSize, id)
    ensures ComesOut(c, X, arrivals, id)
  {
    CauchyRecovers(c, X, arrivals, lost, hits, labels);
    RunRight(c, X, arrivals, true);
    ReachedAccounted(c, arrivals, lost, id);
    AccountedComesOut(c, X, arrivals, id);
  }

  lemma VandermondeDelivers<T(!new)>(
    c: Config<T>, X: Sources<T>, arrivals: seq<Arrival<T>>, lost: seq<nat>, hits: seq<nat>, codes: seq<nat>, id: nat)
    requires IsGenerated(c.F) && SourcesSized(X, c.symbolSize) && c.symbolSize > 0
    requires forall i :: 0 <= i < |arrivals| ==> Acceptable(c, arrivals[i])
    requires GoodRun(c, X, arrivals, true)
    requires |hits| == |lost| == |codes| && Consecutive(codes) && DistinctMod(lost, c.F.order - 1)
    requires forall j :: 0 <= j < |hits| ==> Repairs(c, arrivals, hits[j], lost, VandermondeCoefs(c.F, codes[j]))
    requires Reached(arrivals, lost, c.symbolSize, id)
    ensures ComesOut(c, X, arrivals, id)
  {
    VandermondeRecovers(c, X, arrivals, lost, hits, codes);
    RunRight(c, X, arrivals, true);
    ReachedAccounted(c, arrivals, lost, id);
    AccountedComesOut(c, X, arrivals, id);
  }

  // From submission to delivery, through the bytes of the vector: a lost symbol comes out with the data
  // submitted once everything before it has arrived, is among the lost too, or was passed over.
  lemma SessionDelivers<T(!new)>(
    c: EncoderConfig<T>, dc: Config<T>, k: Codec<T>, ops: seq<Op<T>>, pick: seq<nat>, arrivals: seq<Arrival<T>>,
    missing: set<nat>, lost: seq<nat>, hits: seq<nat>, ns: seq<nat>, first: nat, id: nat)
    requires Built(c) && IsGenerated(c.F) && c.F.order == 256 && c.strategy == CauchyStrategy
    requires Matches(c, dc) && CleanOps(ops) && Lossless(k) && Carried(k, After(c, ops).log, pick, arrivals)
    requires NarrowLog(After(c, ops).log) && |After(c, ops).sources| < 0x1_0000_0000
    requires AllLacking(arrivals, missing, c.symbolSize) && |missing| <= dc.maxRows && dc.maxRows > 0
    requires forall j :: 0 <= j < |arrivals| ==> Acceptable(dc, arrivals[j])
    requires |hits| == |lost| == |ns| && DistinctMod(lost, 128)
    requires forall j :: 0 <= j < |hits| ==>
      Spans(arrivals, hits[j], lost, c.symbolSize) && ns[j] == CodedIn(After(c, ops).log[..pick[hits[j]]])
    requires Distinct(ns) && forall j :: 0 <= j < |ns| ==> first <= ns[j] <= first + 120
    requires Reached(arrivals, lost, c.symbolSize, id)
    ensures ComesOut(dc, EndToEnd.Accepted(c, After(c, ops).sources, c.F.zero), arrivals, id)
  {
    SessionRecovers(c, dc, k, ops, pick, arrivals, missing, lost, hits, ns, first);
    ReachedAccounted(dc, arrivals, lost, id);
    CarriedIsPicked(c, dc, k, ops, pick, arrivals);
    DeliversFiller(c, dc, ops, pick, arrivals, c.F.zero);
    AccountedComesOut(dc, EndToEnd.Accepted(c, After(c, ops).sources, c.F.zero), arrivals, id);
  }

  // ---------------------------------------------------------------- behind a gap

  // A packet over an id above zero, alone: the symbol is known, and waits behind the gap it opened.
  lemma LoneStalls<T(!new)>(c: Config<T>, ev: EncodingVector<T>, id: nat, b: T, d: seq<T>, a: seq<Arrival<T>>)
    requires IsField(c.F) && c.F.order > 1 && WellFormed(ev) && OnlyOver(c.F, ev, id, b) && |d| == c.symbolSize
    requires id > 0 && a == [Arrival(CodedPacket(ev, d), false)]
    ensures id in KnownAfter(c, a) && Stalls(Events(c, a), id) && !Delivered(Events(c, a), id)
  {
    LoneRun(c, ev, id, b, d);
    LoneKnows(c, ev, id, b, d, a);
    GapOnly(Events(c, a), id);
  }

  lemma GapOnly<T>(events: seq<Event<T>>, id: nat)
    requires events == [UnrecoverableGap(0, id)]
    ensures Stalls(events, id) && !Delivered(events, id)
  {
  }

  lemma LoneKnows<T(!new)>(c: Config<T>, ev: EncodingVector<T>, id: nat, b: T, d: seq<T>, a: seq<Arrival<T>>)
    requires IsField(c.F) && c.F.order > 1 && WellFormed(ev) && OnlyOver(c.F, ev, id, b) && |d| == c.symbolSize
    requires a == [Arrival(CodedPacket(ev, d), false)]
    ensures id in KnownAfter(c, a)
  {
    LoneAbsorbed(c, ev, id, b, d);
    CodedStep(c, Start(), ev, d);
    assert a[..0] == [];
    assert Run(c, Start(), a[..0]) == Result(Start(), []);
  }
}
