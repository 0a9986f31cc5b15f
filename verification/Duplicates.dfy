// A cover that lists an id more than once: the encoder adds the symbol each time, the decoder
// keeps one coefficient.

module Duplicates {
  import opened Fields
  import opened Keys
  import opened Rows
  import opened Equations
  import opened Exactness
  import opened Guarantees

  // How often the first n ids list id.
  function Times(ids: seq<nat>, n: nat, id: nat): nat
    requires n <= |ids|
  {
    if n == 0 then 0 else Times(ids, n - 1, id) + if ids[n - 1] == id then 1 else 0
  }

  ghost predicate AllOdd(ids: seq<nat>) {
    forall id :: id in ids ==> Times(ids, |ids|, id) % 2 == 1
  }

  lemma {:induction false} TimesPrefix(ids: seq<nat>, more: seq<nat>, n: nat, id: nat)
    requires n <= |ids|
    ensures Times(ids + more, n, id) == Times(ids, n, id)
  {
    if n > 0 {
      TimesPrefix(ids, more, n - 1, id);
    }
  }

  lemma {:induction false} TimesOnce(ids: seq<nat>, n: nat, id: nat)
    requires Distinct(ids) && n <= |ids|
    ensures Times(ids, n, id) == if id in ids[..n] then 1 else 0
  {
    if n > 0 {
      TimesOnce(ids, n - 1, id);
      assert ids[..n] == ids[..n - 1] + [ids[n - 1]];
    }
  }

  lemma DistinctOdd(ids: seq<nat>)
    requires Distinct(ids)
    ensures AllOdd(ids)
  {
    forall id | id in ids ensures Times(ids, |ids|, id) % 2 == 1 {
      TimesOnce(ids, |ids|, id);
      assert ids[..|ids|] == ids;
    }
  }

  // The ids listed an odd number of times, with their coefficients.
  ghost function OddMap<T>(f: nat -> T, ids: seq<nat>, n: nat): map<nat, T>
    requires n <= |ids|
  {
    if n == 0 then map[]
    else
      Toggled(OddMap(f, ids, n - 1), f, ids[n - 1])
  }

  ghost function Toggled<T>(m: map<nat, T>, f: nat -> T, id: nat): map<nat, T> {
    if id in m then m - {id} else m[id := f(id)]
  }

  lemma Toggle<T(!new)>(F: Field<T>, m: map<nat, T>, f: nat -> T, id: nat, x: Assignment<T>, hi: nat)
    requires IsField(F) && id < hi && (id in m ==> m[id] == f(id))
    ensures Dot(F, FromMap(F, Toggled(m, f, id)), x, hi) == F.add(Dot(F, FromMap(F, m), x, hi), F.mul(f(id), x(id)))
  {
    var t := Toggled(m, f, id);
    if id in m {
      DotRemove(F, FromMap(F, m), FromMap(F, t), id, x, hi);
      SumZero(F, Dot(F, FromMap(F, t), x, hi), F.mul(f(id), x(id)));
    } else {
      DotRemove(F, FromMap(F, t), FromMap(F, m), id, x, hi);
    }
  }

  lemma {:induction false} OddMapAt<T>(f: nat -> T, ids: seq<nat>, n: nat, id: nat)
    requires n <= |ids|
    ensures var m := OddMap(f, ids, n);
            (id in m <==> Times(ids, n, id) % 2 == 1) && (id in m ==> m[id] == f(id))
  {
    if n > 0 {
      OddMapAt(f, ids, n - 1, id);
    }
  }

  lemma {:induction false} TimesPositive(ids: seq<nat>, n: nat, id: nat)
    requires n <= |ids|
    ensures Times(ids, n, id) > 0 <==> id in ids[..n]
  {
    if n > 0 {
      TimesPositive(ids, n - 1, id);
      assert ids[..n] == ids[..n - 1] + [ids[n - 1]];
    }
  }

  // The coefficient of an entry depends on its id alone.
  ghost predicate ById<T>(F: Field<T>, ev: EncodingVector<T>, f: nat -> T)
    requires F.order > 1 && WellFormed(ev)
  {
    forall i :: 0 <= i < |ev.ids| ==> CoefAt(F, ev, i) == f(ev.ids[i])
  }

  // In characteristic 2 the encoder's sum sees a symbol only if it is listed an odd number of times.
  lemma {:induction false} SumIsOdd<T(!new)>(
    F: Field<T>, ev: EncodingVector<T>, f: nat -> T, x: Assignment<T>, n: nat, hi: nat)
    requires IsField(F) && F.order > 1 && WellFormed(ev) && ById(F, ev, f) && n <= |ev.ids|
    requires forall i :: 0 <= i < |ev.ids| ==> ev.ids[i] < hi
    ensures EvSum(F, ev, x, n) == Dot(F, FromMap(F, OddMap(f, ev.ids, n)), x, hi)
  {
    if n == 0 {
      DotOnly(F, FromMap(F, OddMap(f, ev.ids, n)), x, hi, hi);
    } else {
      SumIsOdd(F, ev, f, x, n - 1, hi);
      OddMapAt(f, ev.ids, n - 1, ev.ids[n - 1]);
      Toggle(F, OddMap(f, ev.ids, n - 1), f, ev.ids[n - 1], x, hi);
    }
  }

  // What the decoder takes the payload to be.
  ghost function DecoderSum<T>(F: Field<T>, ev: EncodingVector<T>, x: Assignment<T>): T
    requires F.order > 1 && WellFormed(ev)
  {
    var d := FromMap(F, CoefMap(F, ev, |ev.ids|));
    Dot(F, d, x, End(d))
  }

  lemma DecoderSumMeans<T(!new)>(F: Field<T>, ev: EncodingVector<T>, payload: seq<T>, x: Assignment<T>, p: nat)
    requires IsField(F) && F.order > 1 && WellFormed(ev) && p < |payload|
    ensures EquationHolds(F, ev, payload, x, p) <==> payload[p] == DecoderSum(F, ev, x)
  {
    SumZero(F, payload[p], DecoderSum(F, ev, x));
  }

  lemma {:induction false} CoefMapById<T(!new)>(F: Field<T>, ev: EncodingVector<T>, f: nat -> T, n: nat, id: nat)
    requires F.order > 1 && WellFormed(ev) && ById(F, ev, f) && n <= |ev.ids|
    ensures var m := CoefMap(F, ev, n);
            (id in m <==> id in ev.ids[..n] && f(id) != F.zero) && (id in m ==> m[id] == f(id))
  {
    if n > 0 {
      CoefMapById(F, ev, f, n - 1, id);
      assert ev.ids[..n] == ev.ids[..n - 1] + [ev.ids[n - 1]];
    }
  }

  lemma SameCoefficient<T(!new)>(F: Field<T>, ev: EncodingVector<T>, f: nat -> T, n: nat, id: nat)
    requires F.order > 1 && WellFormed(ev) && ById(F, ev, f) && AllOdd(ev.ids) && n == |ev.ids|
    ensures Get(F, FromMap(F, CoefMap(F, ev, n)), id) == Get(F, FromMap(F, OddMap(f, ev.ids, n)), id)
  {
    assert ev.ids[..n] == ev.ids;
    OddMapAt(f, ev.ids, n, id);
    CoefMapById(F, ev, f, n, id);
    TimesPositive(ev.ids, n, id);
  }

  // What the decoder reads is what the encoder added up.
  lemma OddAgrees<T(!new)>(F: Field<T>, ev: EncodingVector<T>, f: nat -> T, x: Assignment<T>)
    requires IsField(F) && F.order > 1 && WellFormed(ev) && ById(F, ev, f) && AllOdd(ev.ids)
    ensures DecoderSum(F, ev, x) == EvSum(F, ev, x, |ev.ids|)
  {
    var n := |ev.ids|;
    var d, odd := FromMap(F, CoefMap(F, ev, n)), FromMap(F, OddMap(f, ev.ids, n));
    var hi := Above(ev.ids) + End(d);
    SumIsOdd(F, ev, f, x, n, hi);
    DotBeyond(F, d, x, hi);
    forall id: nat | id < hi ensures Get(F, d, id) == Get(F, odd, id) {
      SameCoefficient(F, ev, f, n, id);
    }
    DotMatch(F, d, odd, x, hi);
  }

  ghost function Unit<T>(F: Field<T>, id: nat): Assignment<T> {
    (i: nat) => if i == id then F.one else F.zero
  }

  // An id listed an even number of times tells the two sums apart.
  lemma EvenDiffers<T(!new)>(F: Field<T>, ev: EncodingVector<T>, f: nat -> T, id: nat)
    requires IsField(F) && F.order > 1 && WellFormed(ev) && HasCoefs(F, ev, f)
    requires id in ev.ids && Times(ev.ids, |ev.ids|, id) % 2 == 0
    ensures DecoderSum(F, ev, Unit(F, id)) != EvSum(F, ev, Unit(F, id), |ev.ids|)
  {
    var n, u := |ev.ids|, Unit(F, id);
    var d, odd := FromMap(F, CoefMap(F, ev, n)), FromMap(F, OddMap(f, ev.ids, n));
    var hi := Above(ev.ids);
    assert ev.ids[..n] == ev.ids;
    CoefMapHas(F, ev, f, n, id);
    OddMapAt(f, ev.ids, n, id);
    DotOnly(F, d, u, id, End(d));
    assert DecoderSum(F, ev, u) == f(id);
    SumIsOdd(F, ev, f, u, n, hi);
    DotOnly(F, odd, u, id, hi);
  }

  // Encoder and decoder agree on every source exactly when no id is listed an even number of times.
  lemma AgreeIffOdd<T(!new)>(F: Field<T>, ev: EncodingVector<T>, f: nat -> T)
    requires IsField(F) && F.order > 1 && WellFormed(ev) && HasCoefs(F, ev, f)
    ensures (forall x: Assignment<T> :: DecoderSum(F, ev, x) == EvSum(F, ev, x, |ev.ids|)) <==> AllOdd(ev.ids)
  {
    if AllOdd(ev.ids) {
      forall x: Assignment<T> ensures DecoderSum(F, ev, x) == EvSum(F, ev, x, |ev.ids|) {
        OddAgrees(F, ev, f, x);
      }
    } else {
      var id :| id in ev.ids && Times(ev.ids, |ev.ids|, id) % 2 != 1;
      EvenDiffers(F, ev, f, id);
    }
  }
}
