// The two fields of the code: the results above hold of them, with nothing left to suppose.

module Instances {
  import opened Bytes
  import opened Fields
  import opened Keys
  import opened Coefficients
  import opened Solvability
  import opened Decoding
  import opened Exactness
  import opened Streams
  import opened Encoding
  import opened Sessions
  import opened EndToEnd
  import opened Gf8
  import opened Gf4
  import W = VectorWire
  import opened Wires

  function Codec8(): Codec<Byte> {
    Codec(W.Gf256, b => b, b => b)
  }

  function Codec4(): Codec<Nibble> {
    Codec(W.Gf16, n => W.Wide(n), b => Low(b))
  }

  lemma CodecsLossless()
    ensures Lossless(Codec8()) && Lossless(Codec4())
  {
  }

  // A configuration of the encoder that leaves room for something.
  ghost predicate Sound<T>(c: EncoderConfig<T>) {
    c.symbolSize > 0 && c.capacity > 0 && c.denom > 0
  }

  // Any k packets with different points determine any k symbols that differ mod 128.
  lemma CauchyOver8(ids: seq<nat>, labels: seq<Label>, v: seq<Byte>)
    requires |v| == |ids| == |labels| && DistinctMod(ids, 128) && DistinctPoints(256, labels)
    requires forall j :: 0 <= j < |labels| ==>
      CoefSum(Field8(), CauchyBatch(Field8(), ids, labels[j].codedId, labels[j].generation), v) == ZERO
    ensures forall i :: 0 <= i < |v| ==> v[i] == ZERO
  {
    Field8IsGenerated();
    CauchyDetermines(Field8(), ids, labels, v);
  }

  // Over the smaller field the points are seven.
  lemma CauchyOver4(ids: seq<nat>, labels: seq<Label>, v: seq<Nibble>)
    requires |v| == |ids| == |labels| && DistinctMod(ids, 7) && DistinctPoints(16, labels)
    requires forall j :: 0 <= j < |labels| ==>
      CoefSum(Field4(), CauchyBatch(Field4(), ids, labels[j].codedId, labels[j].generation), v) == NIBBLE_ZERO
    ensures forall i :: 0 <= i < |v| ==> v[i] == NIBBLE_ZERO
  {
    Field4IsGenerated();
    CauchyDetermines(Field4(), ids, labels, v);
  }

  lemma VandermondeOver8(ids: seq<nat>, c: nat, v: seq<Byte>)
    requires |v| == |ids| && DistinctMod(ids, 255)
    requires forall codedId: nat :: c <= codedId < c + |ids| ==>
      CoefSum(Field8(), VandermondeBatch(Field8(), ids, codedId), v) == ZERO
    ensures forall i :: 0 <= i < |v| ==> v[i] == ZERO
  {
    Field8IsGenerated();
    VandermondeDetermines(Field8(), ids, c, v);
  }

  lemma ExactOver8(
    c: EncoderConfig<Byte>, dc: Config<Byte>, ops: seq<Op<Byte>>, pick: seq<nat>, arrivals: seq<Arrival<Byte>>, i: nat)
    requires c.F == Field8() && Matches(c, dc) && CleanOps(ops)
    requires Built(c) && Carried(Codec8(), After(c, ops).log, pick, arrivals)
    requires NarrowLog(After(c, ops).log) && |After(c, ops).sources| < 0x1_0000_0000
    requires forall j :: 0 <= j < |arrivals| ==> Acceptable(dc, arrivals[j])
    requires i < |Run(dc, Start(), arrivals).events| && Run(dc, Start(), arrivals).events[i].SourceReady?
    ensures var sym := Run(dc, Start(), arrivals).events[i].sym;
            sym.id < |After(c, ops).sources| && sym.data == After(c, ops).sources[sym.id]
  {
    CodecsLossless();
    EndToEndExact(c, dc, Codec8(), ops, pick, arrivals, i);
  }

  lemma ExactOver4(
    c: EncoderConfig<Nibble>, dc: Config<Nibble>, ops: seq<Op<Nibble>>, pick: seq<nat>,
    arrivals: seq<Arrival<Nibble>>, i: nat)
    requires c.F == Field4() && Matches(c, dc) && CleanOps(ops)
    requires Built(c) && Carried(Codec4(), After(c, ops).log, pick, arrivals)
    requires NarrowLog(After(c, ops).log) && |After(c, ops).sources| < 0x1_0000_0000
    requires forall j :: 0 <= j < |arrivals| ==> Acceptable(dc, arrivals[j])
    requires i < |Run(dc, Start(), arrivals).events| && Run(dc, Start(), arrivals).events[i].SourceReady?
    ensures var sym := Run(dc, Start(), arrivals).events[i].sym;
            sym.id < |After(c, ops).sources| && sym.data == After(c, ops).sources[sym.id]
  {
    CodecsLossless();
    EndToEndExact(c, dc, Codec4(), ops, pick, arrivals, i);
  }

  lemma RecoversOver8(
    c: EncoderConfig<Byte>, dc: Config<Byte>, ops: seq<Op<Byte>>, pick: seq<nat>, arrivals: seq<Arrival<Byte>>,
    missing: set<nat>, lost: seq<nat>, hits: seq<nat>, ns: seq<nat>, first: nat)
    requires c.F == Field8() && Built(c) && c.strategy == CauchyStrategy
    requires Matches(c, dc) && CleanOps(ops) && Carried(Codec8(), After(c, ops).log, pick, arrivals)
    requires NarrowLog(After(c, ops).log) && |After(c, ops).sources| < 0x1_0000_0000
    requires AllLacking(arrivals, missing, c.symbolSize) && |missing| <= dc.maxRows && dc.maxRows > 0
    requires forall j :: 0 <= j < |arrivals| ==> Acceptable(dc, arrivals[j])
    requires |hits| == |lost| == |ns| && DistinctMod(lost, 128)
    requires forall j :: 0 <= j < |hits| ==>
      Spans(arrivals, hits[j], lost, c.symbolSize) && ns[j] == CodedIn(After(c, ops).log[..pick[hits[j]]])
    requires Distinct(ns) && forall j :: 0 <= j < |ns| ==> first <= ns[j] <= first + 120
    ensures forall j :: 0 <= j < |lost| ==> lost[j] in Run(dc, Start(), arrivals).state.known
  {
    Field8IsGenerated();
    CodecsLossless();
    SessionRecovers(c, dc, Codec8(), ops, pick, arrivals, missing, lost, hits, ns, first);
  }

  lemma RecoversOver4(
    c: EncoderConfig<Nibble>, dc: Config<Nibble>, ops: seq<Op<Nibble>>, pick: seq<nat>, arrivals: seq<Arrival<Nibble>>,
    missing: set<nat>, lost: seq<nat>, hits: seq<nat>, ns: seq<nat>, first: nat)
    requires c.F == Field4() && Built(c) && c.strategy == CauchyStrategy
    requires Matches(c, dc) && CleanOps(ops) && Carried(Codec4(), After(c, ops).log, pick, arrivals)
    requires NarrowLog(After(c, ops).log) && |After(c, ops).sources| < 0x1_0000_0000
    requires AllLacking(arrivals, missing, c.symbolSize) && |missing| <= dc.maxRows && dc.maxRows > 0
    requires forall j :: 0 <= j < |arrivals| ==> Acceptable(dc, arrivals[j])
    requires |hits| == |lost| == |ns| && DistinctMod(lost, 7)
    requires forall j :: 0 <= j < |hits| ==>
      Spans(arrivals, hits[j], lost, c.symbolSize) && ns[j] == CodedIn(After(c, ops).log[..pick[hits[j]]])
    requires Close16(ns, first)
    ensures forall j :: 0 <= j < |lost| ==> lost[j] in Run(dc, Start(), arrivals).state.known
  {
    Field4IsGenerated();
    CodecsLossless();
    SessionRecovers16(c, dc, Codec4(), ops, pick, arrivals, missing, lost, hits, ns, first);
  }

  // A sound configuration over either field is one that the results are about.
  lemma SoundIsBuilt(c: EncoderConfig<Byte>, d: EncoderConfig<Nibble>)
    requires c.F == Field8() && d.F == Field4()
    ensures (Built(c) <==> Sound(c)) && (Built(d) <==> Sound(d))
    ensures IsGenerated(c.F) && IsGenerated(d.F)
  {
    Field8IsGenerated();
    Field4IsGenerated();
  }
}
