// The constant rate: numer coded packets for every denom source packets, spread by an accumulator.

module FecRates {
  import opened LogTables

  // What the controller has asked for after n calls, and what is left in the accumulator.
  ghost function AccAfter(numer: nat, denom: nat, n: nat): nat
    requires denom > 0
  {
    if n == 0 then 0 else (AccAfter(numer, denom, n - 1) + numer) % denom
  }

  ghost function TotalAfter(numer: nat, denom: nat, n: nat): nat
    requires denom > 0
  {
    if n == 0 then 0
    else TotalAfter(numer, denom, n - 1) + (AccAfter(numer, denom, n - 1) + numer) / denom
  }

  lemma SplitOff(m: nat, total: nat, denom: nat)
    requires denom > 0
    ensures (total + m / denom) * denom + m % denom == total * denom + m
  {
    assert m / denom * denom + m % denom == m;
  }

  lemma ShareStep(n: nat, numer: nat)
    requires n > 0
    ensures n * numer == (n - 1) * numer + numer
  {
  }

  lemma {:induction false} NothingLost(numer: nat, denom: nat, n: nat)
    requires denom > 0
    ensures TotalAfter(numer, denom, n) * denom + AccAfter(numer, denom, n) == n * numer
    ensures AccAfter(numer, denom, n) < denom
  {
    if n > 0 {
      NothingLost(numer, denom, n - 1);
      SplitOff(AccAfter(numer, denom, n - 1) + numer, TotalAfter(numer, denom, n - 1), denom);
      ShareStep(n, numer);
    }
  }

  // After any number of calls the total is exact, rounded down.
  lemma TotalIsExact(numer: nat, denom: nat, n: nat)
    requires denom > 0
    ensures TotalAfter(numer, denom, n) == n * numer / denom
  {
    NothingLost(numer, denom, n);
    Quotient(n * numer, TotalAfter(numer, denom, n), AccAfter(numer, denom, n), denom);
  }

  lemma Quotient(m: nat, q: nat, r: nat, d: nat)
    requires d > 0 && m == q * d + r && r < d
    ensures m / d == q
  {
    var e := m / d - q;
    Multiple(d, e);
    assert d * e == d * (m / d) - d * q;
  }

  class ConstantFecRate {
    const numer: nat
    const denom: nat
    var acc: nat

    // The number of calls so far.
    ghost var calls: nat

    ghost predicate Valid()
      reads this
    {
      denom > 0 && acc == AccAfter(numer, denom, calls)
    }

    constructor (numer: nat, denom: nat)
      requires denom > 0
      ensures this.numer == numer && this.denom == denom && calls == 0 && Valid()
    {
      this.numer, this.denom, acc, calls := numer, denom, 0, 0;
    }

    method CodedPacketsToGenerate() returns (count: nat)
      requires Valid()
      modifies this
      ensures Valid() && calls == old(calls) + 1
      ensures TotalAfter(numer, denom, calls) == TotalAfter(numer, denom, old(calls)) + count
    {
      acc := acc + numer;
      count := acc / denom;
      acc := acc % denom;
      calls := calls + 1;
    }
  }
}
