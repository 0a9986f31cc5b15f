// What the coefficient matrices promise for a run: k lost symbols come back as soon as k coded
// packets over them have arrived, whichever k they are.

module Guarantees {
  import opened Fields
  import opened Keys
  import opened Rows
  import opened Solvability
  import opened Equations
  import opened Coefficients
  import opened Decoding
  import opened Exactness
  import opened Streams

  // ---------------------------------------------------------------- an equation as a sum

  // The sum of the first n coefficients times the symbols they stand for.
  ghost function EvSum<T>(F: Field<T>, ev: EncodingVector<T>, x: Assignment<T>, n: nat): T
    requires F.order > 1 && WellFormed(ev) && n <= |ev.ids|
  {
    if n == 0 then F.zero else F.add(EvSum(F, ev, x, n - 1), F.mul(CoefAt(F, ev, n - 1), x(ev.ids[n - 1])))
  }

  lemma DotGrows<T(!new)>(
    F: Field<T>, before: map<nat, T>, after: map<nat, T>, id: nat, c: T, x: Assignment<T>, hi: nat)
    requires IsField(F) && id !in before && id < hi && after == if c == F.zero then before else before[id := c]
    ensures Dot(F, FromMap(F, after), x, hi) == F.add(Dot(F, FromMap(F, before), x, hi), F.mul(c, x(id)))
  {
    if c != F.zero {
      DotRemove(F, FromMap(F, after), FromMap(F, before), id, x, hi);
    }
  }

  // The decoder's row and the encoder's sum agree when no id is covered twice.
  lemma {:induction false} DotIsSum<T(!new)>(F: Field<T>, ev: EncodingVector<T>, x: Assignment<T>, n: nat, hi: nat)
    requires IsField(F) && F.order > 1 && WellFormed(ev) && n <= |ev.ids| && Distinct(ev.ids)
    requires forall i :: 0 <= i < n ==> ev.ids[i] < hi
    ensures Dot(F, FromMap(F, CoefMap(F, ev, n)), x, hi) == EvSum(F, ev, x, n)
  {
    if n == 0 {
      var none := FromMap(F, CoefMap(F, ev, n));
      DotOnly(F, none, x, hi, hi);
    } else {
      DotIsSum(F, ev, x, n - 1, hi);
      DotGrows(F, CoefMap(F, ev, n - 1), CoefMap(F, ev, n), ev.ids[n - 1], CoefAt(F, ev, n - 1), x, hi);
    }
  }

  lemma ResidualIsSum<T(!new)>(F: Field<T>, ev: EncodingVector<T>, payload: seq<T>, x: Assignment<T>, p: nat)
    requires IsField(F) && F.order > 1 && WellFormed(ev) && Distinct(ev.ids) && p < |payload|
    ensures Residual(F, Row(FromMap(F, CoefMap(F, ev, |ev.ids|)), payload), x, p)
         == F.add(payload[p], EvSum(F, ev, x, |ev.ids|))
    ensures EquationHolds(F, ev, payload, x, p) <==> payload[p] == EvSum(F, ev, x, |ev.ids|)
  {
    var d := FromMap(F, CoefMap(F, ev, |ev.ids|));
    var hi := Above(ev.ids) + End(d);
    DotIsSum(F, ev, x, |ev.ids|, hi);
    DotBeyond(F, d, x, hi);
    SumZero(F, payload[p], EvSum(F, ev, x, |ev.ids|));
  }

  ghost function Above(ids: seq<nat>): (hi: nat)
    ensures forall i :: 0 <= i < |ids| ==> ids[i] < hi
  {
    if ids == [] then 0
    else
      var hi := Above(ids[..|ids| - 1]);
      assert forall i :: 0 <= i < |ids| - 1 ==> ids[i] == ids[..|ids| - 1][i];
      hi + ids[|ids| - 1] + 1
  }

  // ---------------------------------------------------------------- the difference of two pasts

  // The coefficients of the packet are those of f, none of them zero.
  ghost predicate HasCoefs<T>(F: Field<T>, ev: EncodingVector<T>, f: nat -> T)
    requires F.order > 1 && WellFormed(ev)
  {
    && (forall id: nat :: f(id) != F.zero)
    && forall i :: 0 <= i < |ev.ids| ==> CoefAt(F, ev, i) == f(ev.ids[i])
  }

  lemma {:induction false} CoefMapHas<T(!new)>(F: Field<T>, ev: EncodingVector<T>, f: nat -> T, n: nat, id: nat)
    requires F.order > 1 && WellFormed(ev) && HasCoefs(F, ev, f) && n <= |ev.ids|
    ensures var m := CoefMap(F, ev, n);
            (id in m <==> id in ev.ids[..n]) && (id in m ==> m[id] == f(id))
  {
    if n > 0 {
      CoefMapHas(F, ev, f, n - 1, id);
      assert ev.ids[..n] == ev.ids[..n - 1] + [ev.ids[n - 1]];
    }
  }

  lemma {:induction false} DotMatch<T(!new)>(F: Field<T>, d: Dense<T>, e: Dense<T>, x: Assignment<T>, hi: nat)
    requires IsField(F)
    requires forall i: nat :: i < hi ==> Get(F, d, i) == Get(F, e, i) || x(i) == F.zero
    ensures Dot(F, d, x, hi) == Dot(F, e, x, hi)
  {
    if hi > 0 {
      DotMatch(F, d, e, x, hi - 1);
    }
  }

  lemma {:induction false} CoefSumLast<T(!new)>(F: Field<T>, coefs: seq<T>, v: seq<T>, c: T, w: T)
    requires IsField(F) && |v| == |coefs|
    ensures CoefSum(F, coefs + [c], v + [w]) == F.add(CoefSum(F, coefs, v), F.mul(w, c))
  {
    var cs, vs := coefs + [c], v + [w];
    if coefs == [] {
      assert cs[1..] == [] && vs[1..] == [];
    } else {
      assert cs[1..] == coefs[1..] + [c] && vs[1..] == v[1..] + [w];
      CoefSumLast(F, coefs[1..], v[1..], c, w);
      Laws(F, F.mul(v[0], coefs[0]), CoefSum(F, coefs[1..], v[1..]), F.mul(w, c));
    }
  }

  ghost function Values<T>(f: nat -> T, ids: seq<nat>): (r: seq<T>)
    ensures |r| == |ids|
  {
    seq(|ids|, i requires 0 <= i < |ids| => f(ids[i]))
  }

  lemma ValuesLast<T>(f: nat -> T, ids: seq<nat>, n: nat)
    requires 0 < n <= |ids|
    ensures Values(f, ids[..n]) == Values(f, ids[..n - 1]) + [f(ids[n - 1])]
  {
  }

  lemma {:induction false} EvSumIsCoefSum<T(!new)>(
    F: Field<T>, ev: EncodingVector<T>, f: nat -> T, x: Assignment<T>, n: nat)
    requires IsField(F) && F.order > 1 && WellFormed(ev) && HasCoefs(F, ev, f) && n <= |ev.ids|
    ensures EvSum(F, ev, x, n) == CoefSum(F, Values(f, ev.ids[..n]), Values(x, ev.ids[..n]))
  {
    if n > 0 {
      EvSumIsCoefSum(F, ev, f, x, n - 1);
      var init, id := ev.ids[..n - 1], ev.ids[n - 1];
      ValuesLast(f, ev.ids, n);
      ValuesLast(x, ev.ids, n);
      CoefSumLast(F, Values(f, init), Values(x, init), f(id), x(id));
      Laws(F, f(id), x(id), x(id));
    }
  }

  // The packet restricted to the ids of `lost`.
  ghost function Restricted<T>(ev: EncodingVector<T>, f: nat -> T, lost: seq<nat>): EncodingVector<T> {
    EncodingVector(ev.codedId, ev.generation, lost, Values(f, lost))
  }

  ghost function Difference<T>(F: Field<T>, x: Assignment<T>, y: Assignment<T>): Assignment<T> {
    (id: nat) => F.add(x(id), y(id))
  }

  lemma RestrictedDot<T(!new)>(
    F: Field<T>, ev: EncodingVector<T>, f: nat -> T, lost: seq<nat>, z: Assignment<T>, hi: nat)
    requires IsField(F) && F.order > 1 && WellFormed(ev) && HasCoefs(F, ev, f)
    requires forall i :: 0 <= i < |lost| ==> lost[i] in ev.ids
    requires forall id :: id in ev.ids && id !in lost ==> z(id) == F.zero
    ensures Dot(F, FromMap(F, CoefMap(F, ev, |ev.ids|)), z, hi)
         == Dot(F, FromMap(F, CoefMap(F, Restricted(ev, f, lost), |lost|)), z, hi)
  {
    var r := Restricted(ev, f, lost);
    var d, e := FromMap(F, CoefMap(F, ev, |ev.ids|)), FromMap(F, CoefMap(F, r, |lost|));
    assert HasCoefs(F, r, f);
    forall i: nat | i < hi ensures Get(F, d, i) == Get(F, e, i) || z(i) == F.zero {
      CoefMapHas(F, ev, f, |ev.ids|, i);
      CoefMapHas(F, r, f, |lost|, i);
      assert ev.ids[..|ev.ids|] == ev.ids && lost[..|lost|] == lost;
    }
    DotMatch(F, d, e, z, hi);
  }

  // Two pasts that fit a packet and agree off `lost` differ there by a vector its coefficients send to zero.
  lemma DifferenceVanishes<T(!new)>(
    F: Field<T>, ev: EncodingVector<T>, payload: seq<T>, f: nat -> T, lost: seq<nat>,
    x: Assignment<T>, y: Assignment<T>, p: nat)
    requires IsField(F) && F.order > 1 && WellFormed(ev) && HasCoefs(F, ev, f) && p < |payload|
    requires EquationHolds(F, ev, payload, x, p) && EquationHolds(F, ev, payload, y, p)
    requires Distinct(lost) && forall i :: 0 <= i < |lost| ==> lost[i] in ev.ids
    requires forall id :: id in ev.ids && id !in lost ==> x(id) == y(id)
    ensures CoefSum(F, Values(f, lost), Values(Difference(F, x, y), lost)) == F.zero
  {
    var z := Difference(F, x, y);
    var d := FromMap(F, CoefMap(F, ev, |ev.ids|));
    var hi := End(d) + Above(lost);
    SameDot(F, d, payload, x, y, p);
    DotAdd(F, d, x, y, z, End(d));
    SumZero(F, Dot(F, d, x, End(d)), Dot(F, d, y, End(d)));
    DotBeyond(F, d, z, hi);
    RestrictedDot(F, ev, f, lost, z, hi);
    RestrictedSum(F, ev, f, lost, z, hi);
  }

  lemma RestrictedSum<T(!new)>(
    F: Field<T>, ev: EncodingVector<T>, f: nat -> T, lost: seq<nat>, z: Assignment<T>, hi: nat)
    requires IsField(F) && F.order > 1 && Distinct(lost) && forall i :: 0 <= i < |lost| ==> lost[i] < hi
    requires WellFormed(ev) && WellFormed(Restricted(ev, f, lost)) && HasCoefs(F, ev, f)
    ensures Dot(F, FromMap(F, CoefMap(F, Restricted(ev, f, lost), |lost|)), z, hi)
         == CoefSum(F, Values(f, lost), Values(z, lost))
  {
    var r := Restricted(ev, f, lost);
    DotIsSum(F, r, z, |lost|, hi);
    assert HasCoefs(F, r, f);
    EvSumIsCoefSum(F, r, f, z, |lost|);
    assert lost[..|lost|] == lost;
  }

  lemma SameDot<T(!new)>(F: Field<T>, d: Dense<T>, payload: seq<T>, x: Assignment<T>, y: Assignment<T>, p: nat)
    requires IsField(F) && p < |payload|
    requires Residual(F, Row(d, payload), x, p) == F.zero && Residual(F, Row(d, payload), y, p) == F.zero
    ensures Dot(F, d, x, End(d)) == Dot(F, d, y, End(d))
  {
    SumZero(F, payload[p], Dot(F, d, x, End(d)));
    SumZero(F, payload[p], Dot(F, d, y, End(d)));
  }

  // ---------------------------------------------------------------- every packet that arrived

  lemma {:induction false} FitsEach<T(!new)>(
    c: Config<T>, X: Sources<T>, arrivals: seq<Arrival<T>>, x: Assignment<T>, p: nat, i: nat)
    requires c.F.order > 1 && p < c.symbolSize && i < |arrivals|
    requires forall i :: 0 <= i < |arrivals| ==> Acceptable(c, arrivals[i])
    requires Usable(c, Collect(arrivals, c.symbolSize)) && Fits(c, X, Collect(arrivals, c.symbolSize), x, p)
    ensures FitsPacket(c, X, arrivals[i], x, p)
  {
    var init, a := arrivals[..|arrivals| - 1], arrivals[|arrivals| - 1];
    CollectUsable(c, init);
    AddFits(c, X, Collect(init, c.symbolSize), a, x, p);
    if i < |init| {
      FitsEach(c, X, init, x, p, i);
    }
  }

  lemma ReceivedFits<T(!new)>(
    c: Config<T>, X: Sources<T>, arrivals: seq<Arrival<T>>, x: Assignment<T>, p: nat, id: nat)
    requires c.F.order > 1 && p < c.symbolSize && Received(arrivals, id, c.symbolSize)
    requires forall i :: 0 <= i < |arrivals| ==> Acceptable(c, arrivals[i])
    requires Usable(c, Collect(arrivals, c.symbolSize)) && Fits(c, X, Collect(arrivals, c.symbolSize), x, p)
    ensures x(id) == Column(c.F, X, p)(id)
  {
    var i :| 0 <= i < |arrivals| && Brings(arrivals[i], id, c.symbolSize);
    FitsEach(c, X, arrivals, x, p, i);
  }

  // A coded packet over all of `lost` and otherwise over symbols that were received.
  ghost predicate Repairs<T(!new)>(c: Config<T>, arrivals: seq<Arrival<T>>, k: nat, lost: seq<nat>, f: nat -> T)
    requires c.F.order > 1
  {
    && k < |arrivals| && arrivals[k].packet.CodedPacket?
    && var ev := arrivals[k].packet.ev;
       && WellFormed(ev) && |arrivals[k].packet.payload| == c.symbolSize
       && HasCoefs(c.F, ev, f)
       && (forall i :: 0 <= i < |lost| ==> lost[i] in ev.ids)
       && (forall id :: id in ev.ids && id !in lost ==> Received(arrivals, id, c.symbolSize))
  }

  // Each repair packet takes any possible past to the same sum as the true one.
  lemma RepairVanishes<T(!new)>(
    c: Config<T>, X: Sources<T>, arrivals: seq<Arrival<T>>, k: nat, lost: seq<nat>, f: nat -> T,
    x: Assignment<T>, p: nat)
    requires IsField(c.F) && c.F.order > 1 && p < c.symbolSize && Distinct(lost)
    requires forall i :: 0 <= i < |arrivals| ==> Acceptable(c, arrivals[i]) && Truthful(c, X, arrivals[i])
    requires Usable(c, Collect(arrivals, c.symbolSize)) && Fits(c, X, Collect(arrivals, c.symbolSize), x, p)
    requires Repairs(c, arrivals, k, lost, f)
    ensures CoefSum(c.F, Values(f, lost), Values(Difference(c.F, x, Column(c.F, X, p)), lost)) == c.F.zero
  {
    var ev, payload := arrivals[k].packet.ev, arrivals[k].packet.payload;
    FitsEach(c, X, arrivals, x, p, k);
    assert Truthful(c, X, arrivals[k]);
    forall id | id in ev.ids && id !in lost ensures x(id) == Column(c.F, X, p)(id) {
      ReceivedFits(c, X, arrivals, x, p, id);
    }
    DifferenceVanishes(c.F, ev, payload, f, lost, x, Column(c.F, X, p), p);
  }

  lemma {:induction false} GoodTruthful<T(!new)>(
    c: Config<T>, X: Sources<T>, arrivals: seq<Arrival<T>>, lossless: bool, k: nat)
    requires forall i :: 0 <= i < |arrivals| ==> Acceptable(c, arrivals[i])
    requires GoodRun(c, X, arrivals, lossless) && k < |arrivals|
    ensures Truthful(c, X, arrivals[k])
  {
    if k < |arrivals| - 1 {
      GoodTruthful(c, X, arrivals[..|arrivals| - 1], lossless, k);
    }
  }

  lemma ModDistinct(ids: seq<nat>, m: nat)
    requires m > 0 && DistinctMod(ids, m)
    ensures Distinct(ids)
  {
  }

  // The coefficients of Cauchy packet `at`, and of Vandermonde packet `codedId`.
  ghost function CauchyCoefs<T>(F: Field<T>, at: Label): nat -> T {
    (id: nat) => Cauchy(F, id, at.codedId, at.generation)
  }

  ghost function VandermondeCoefs<T>(F: Field<T>, codedId: nat): nat -> T
    requires F.order > 1
  {
    (id: nat) => Vandermonde(F, id, codedId)
  }

  lemma CauchyValues<T>(F: Field<T>, ids: seq<nat>, at: Label)
    ensures Values(CauchyCoefs(F, at), ids) == CauchyBatch(F, ids, at.codedId, at.generation)
  {
  }

  lemma VandermondeValues<T>(F: Field<T>, ids: seq<nat>, codedId: nat)
    requires F.order > 1
    ensures Values(VandermondeCoefs(F, codedId), ids) == VandermondeBatch(F, ids, codedId)
  {
  }

  // With Cauchy coefficients: k symbols that differ mod the cycle, k packets with different points.
  lemma CauchyRecovers<T(!new)>(
    c: Config<T>, X: Sources<T>, arrivals: seq<Arrival<T>>, lost: seq<nat>, hits: seq<nat>, labels: seq<Label>)
    requires IsGenerated(c.F) && SourcesSized(X, c.symbolSize) && c.symbolSize > 0
    requires forall i :: 0 <= i < |arrivals| ==> Acceptable(c, arrivals[i])
    requires GoodRun(c, X, arrivals, true)
    requires |hits| == |lost| == |labels|
    requires DistinctMod(lost, Cycle(c.F.order)) && DistinctPoints(c.F.order, labels)
    requires forall j :: 0 <= j < |hits| ==> Repairs(c, arrivals, hits[j], lost, CauchyCoefs(c.F, labels[j]))
    ensures forall i :: 0 <= i < |lost| ==> lost[i] in Run(c, Start(), arrivals).state.known
  {
    CollectUsable(c, arrivals);
    ModDistinct(lost, Cycle(c.F.order));
    forall k | 0 <= k < |arrivals| ensures Truthful(c, X, arrivals[k]) {
      GoodTruthful(c, X, arrivals, true, k);
    }
    forall i | 0 <= i < |lost| ensures lost[i] in Run(c, Start(), arrivals).state.known {
      forall x: Assignment<T>, p: nat | p < c.symbolSize && Fits(c, X, Collect(arrivals, c.symbolSize), x, p)
        ensures x(lost[i]) == Column(c.F, X, p)(lost[i])
      {
        CauchyPins(c, X, arrivals, lost, hits, labels, x, p);
      }
      RecoveryIsOptimal(c, X, arrivals, lost[i]);
    }
  }

  lemma CauchyPins<T(!new)>(
    c: Config<T>, X: Sources<T>, arrivals: seq<Arrival<T>>, lost: seq<nat>, hits: seq<nat>, labels: seq<Label>,
    x: Assignment<T>, p: nat)
    requires IsGenerated(c.F) && p < c.symbolSize && Distinct(lost)
    requires forall i :: 0 <= i < |arrivals| ==> Acceptable(c, arrivals[i]) && Truthful(c, X, arrivals[i])
    requires Usable(c, Collect(arrivals, c.symbolSize)) && Fits(c, X, Collect(arrivals, c.symbolSize), x, p)
    requires |hits| == |lost| == |labels|
    requires DistinctMod(lost, Cycle(c.F.order)) && DistinctPoints(c.F.order, labels)
    requires forall j :: 0 <= j < |hits| ==> Repairs(c, arrivals, hits[j], lost, CauchyCoefs(c.F, labels[j]))
    ensures AgreesAt(c.F, X, lost, x, p)
  {
    var z := Difference(c.F, x, Column(c.F, X, p));
    forall j | 0 <= j < |labels|
      ensures CoefSum(c.F, CauchyBatch(c.F, lost, labels[j].codedId, labels[j].generation), Values(z, lost)) == c.F.zero
    {
      RepairVanishes(c, X, arrivals, hits[j], lost, CauchyCoefs(c.F, labels[j]), x, p);
      CauchyValues(c.F, lost, labels[j]);
    }
    CauchyDetermines(c.F, lost, labels, Values(z, lost));
    ZeroDifference(c.F, X, lost, x, p);
  }

  ghost predicate AgreesAt<T>(F: Field<T>, X: Sources<T>, lost: seq<nat>, x: Assignment<T>, p: nat) {
    forall i :: 0 <= i < |lost| ==> x(lost[i]) == Column(F, X, p)(lost[i])
  }

  lemma ZeroDifference<T(!new)>(F: Field<T>, X: Sources<T>, lost: seq<nat>, x: Assignment<T>, p: nat)
    requires IsField(F) && AllZero(F, Values(Difference(F, x, Column(F, X, p)), lost))
    ensures AgreesAt(F, X, lost, x, p)
  {
    var y := Column(F, X, p);
    forall i | 0 <= i < |lost| ensures x(lost[i]) == y(lost[i]) {
      assert Values(Difference(F, x, y), lost)[i] == F.zero;
      SumZero(F, x(lost[i]), y(lost[i]));
    }
  }

  ghost function NthLabels(ns: seq<nat>): (r: seq<Label>)
    ensures |r| == |ns|
  {
    seq(|ns|, j requires 0 <= j < |ns| => NthLabel(ns[j]))
  }

  lemma ConsecutiveDistinct(ns: seq<nat>, first: nat)
    requires Distinct(ns) && forall j :: 0 <= j < |ns| ==> first <= ns[j] <= first + 120
    ensures DistinctPoints(256, NthLabels(ns))
  {
    forall i, j | 0 <= i < j < |ns| ensures NthPoint(ns[i]) != NthPoint(ns[j]) {
      assert ns[j] !in ns[..j] && ns[i] in ns[..j];
      TwoDiffer(ns[i], ns[j]);
    }
  }

  lemma TwoDiffer(m: nat, n: nat)
    requires m != n && m <= n + 120 && n <= m + 120
    ensures NthPoint(m) != NthPoint(n)
  {
    if m < n {
      ConsecutivePointsDiffer(m, n);
    } else {
      ConsecutivePointsDiffer(n, m);
    }
  }

  // In GF(2^8) any k of 121 consecutive Cauchy packets will do; `ns` are their numbers in the session.
  lemma ConsecutivePacketsRecover<T(!new)>(
    c: Config<T>, X: Sources<T>, arrivals: seq<Arrival<T>>, lost: seq<nat>, hits: seq<nat>, ns: seq<nat>, first: nat)
    requires IsGenerated(c.F) && c.F.order == 256 && SourcesSized(X, c.symbolSize) && c.symbolSize > 0
    requires forall i :: 0 <= i < |arrivals| ==> Acceptable(c, arrivals[i])
    requires GoodRun(c, X, arrivals, true)
    requires |hits| == |lost| == |ns| && DistinctMod(lost, 128)
    requires Distinct(ns) && forall j :: 0 <= j < |ns| ==> first <= ns[j] <= first + 120
    requires forall j :: 0 <= j < |hits| ==> Repairs(c, arrivals, hits[j], lost, CauchyCoefs(c.F, NthLabel(ns[j])))
    ensures forall i :: 0 <= i < |lost| ==> lost[i] in Run(c, Start(), arrivals).state.known
  {
    ConsecutiveDistinct(ns, first);
    CauchyRecovers(c, X, arrivals, lost, hits, NthLabels(ns));
  }

  ghost predicate Consecutive(codes: seq<nat>) {
    forall j :: 0 <= j < |codes| ==> codes[j] == First(codes) + j
  }

  ghost function First(codes: seq<nat>): nat {
    if codes == [] then 0 else codes[0]
  }

  // With Vandermonde coefficients: k symbols that differ mod order - 1, k consecutive packets.
  lemma VandermondeRecovers<T(!new)>(
    c: Config<T>, X: Sources<T>, arrivals: seq<Arrival<T>>, lost: seq<nat>, hits: seq<nat>, codes: seq<nat>)
    requires IsGenerated(c.F) && SourcesSized(X, c.symbolSize) && c.symbolSize > 0
    requires forall i :: 0 <= i < |arrivals| ==> Acceptable(c, arrivals[i])
    requires GoodRun(c, X, arrivals, true)
    requires |hits| == |lost| == |codes| && Consecutive(codes) && DistinctMod(lost, c.F.order - 1)
    requires forall j :: 0 <= j < |hits| ==> Repairs(c, arrivals, hits[j], lost, VandermondeCoefs(c.F, codes[j]))
    ensures forall i :: 0 <= i < |lost| ==> lost[i] in Run(c, Start(), arrivals).state.known
  {
    CollectUsable(c, arrivals);
    ModDistinct(lost, c.F.order - 1);
    forall k | 0 <= k < |arrivals| ensures Truthful(c, X, arrivals[k]) {
      GoodTruthful(c, X, arrivals, true, k);
    }
    forall i | 0 <= i < |lost| ensures lost[i] in Run(c, Start(), arrivals).state.known {
      forall x: Assignment<T>, p: nat | p < c.symbolSize && Fits(c, X, Collect(arrivals, c.symbolSize), x, p)
        ensures x(lost[i]) == Column(c.F, X, p)(lost[i])
      {
        VandermondePins(c, X, arrivals, lost, hits, codes, x, p);
      }
      RecoveryIsOptimal(c, X, arrivals, lost[i]);
    }
  }

  // The coefficients f take the difference between x and what was sent to zero.
  ghost predicate Cancels<T>(c: Config<T>, X: Sources<T>, lost: seq<nat>, f: nat -> T, x: Assignment<T>, p: nat) {
    CoefSum(c.F, Values(f, lost), Values(Difference(c.F, x, Column(c.F, X, p)), lost)) == c.F.zero
  }

  lemma AllCancel<T(!new)>(
    c: Config<T>, X: Sources<T>, arrivals: seq<Arrival<T>>, lost: seq<nat>, hits: seq<nat>, fs: seq<nat -> T>,
    x: Assignment<T>, p: nat)
    requires IsField(c.F) && c.F.order > 1 && p < c.symbolSize && Distinct(lost)
    requires forall i :: 0 <= i < |arrivals| ==> Acceptable(c, arrivals[i]) && Truthful(c, X, arrivals[i])
    requires Usable(c, Collect(arrivals, c.symbolSize)) && Fits(c, X, Collect(arrivals, c.symbolSize), x, p)
    requires |hits| == |fs| && forall j :: 0 <= j < |hits| ==> Repairs(c, arrivals, hits[j], lost, fs[j])
    ensures forall j :: 0 <= j < |fs| ==> Cancels(c, X, lost, fs[j], x, p)
  {
    forall j | 0 <= j < |fs| ensures Cancels(c, X, lost, fs[j], x, p) {
      RepairVanishes(c, X, arrivals, hits[j], lost, fs[j], x, p);
    }
  }

  ghost function VandermondeRows<T>(F: Field<T>, codes: seq<nat>): (r: seq<nat -> T>)
    requires F.order > 1
    ensures |r| == |codes| && forall j :: 0 <= j < |codes| ==> r[j] == VandermondeCoefs(F, codes[j])
  {
    seq<nat -> T>(|codes|, j requires 0 <= j < |codes| => VandermondeCoefs(F, codes[j]))
  }

  lemma VandermondePins<T(!new)>(
    c: Config<T>, X: Sources<T>, arrivals: seq<Arrival<T>>, lost: seq<nat>, hits: seq<nat>, codes: seq<nat>,
    x: Assignment<T>, p: nat)
    requires IsGenerated(c.F) && p < c.symbolSize && Distinct(lost)
    requires forall i :: 0 <= i < |arrivals| ==> Acceptable(c, arrivals[i]) && Truthful(c, X, arrivals[i])
    requires Usable(c, Collect(arrivals, c.symbolSize)) && Fits(c, X, Collect(arrivals, c.symbolSize), x, p)
    requires |hits| == |lost| == |codes| && Consecutive(codes) && DistinctMod(lost, c.F.order - 1)
    requires forall j :: 0 <= j < |hits| ==> Repairs(c, arrivals, hits[j], lost, VandermondeCoefs(c.F, codes[j]))
    ensures AgreesAt(c.F, X, lost, x, p)
  {
    AllCancel(c, X, arrivals, lost, hits, VandermondeRows(c.F, codes), x, p);
    VandermondeZero(c, X, lost, codes, x, p);
  }

  lemma VandermondeZero<T(!new)>(c: Config<T>, X: Sources<T>, lost: seq<nat>, codes: seq<nat>, x: Assignment<T>, p: nat)
    requires IsGenerated(c.F) && DistinctMod(lost, c.F.order - 1) && |lost| == |codes| && Consecutive(codes)
    requires forall j :: 0 <= j < |codes| ==> Cancels(c, X, lost, VandermondeRows(c.F, codes)[j], x, p)
    ensures AgreesAt(c.F, X, lost, x, p)
  {
    var v := Values(Difference(c.F, x, Column(c.F, X, p)), lost);
    forall codedId: nat | First(codes) <= codedId < First(codes) + |lost|
      ensures CoefSum(c.F, VandermondeBatch(c.F, lost, codedId), v) == c.F.zero
    {
      var j := codedId - First(codes);
      assert codes[j] == codedId && Cancels(c, X, lost, VandermondeRows(c.F, codes)[j], x, p);
      VandermondeValues(c.F, lost, codedId);
    }
    VandermondeDetermines(c.F, lost, First(codes), v);
    ZeroDifference(c.F, X, lost, x, p);
  }
}
