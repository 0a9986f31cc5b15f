// The equation that a coded packet carries.

module Equations {
  import opened Fields

  // Explicit coefficients, or none: then the Vandermonde coefficients of codedId are meant.
  datatype EncodingVector<T> = EncodingVector(codedId: nat, generation: nat, ids: seq<nat>, coefs: seq<T>)

  ghost predicate WellFormed<T>(ev: EncodingVector<T>) {
    ev.coefs == [] || |ev.coefs| == |ev.ids|
  }

  function Vandermonde<T>(F: Field<T>, src: nat, codedId: nat): T
    requires F.order > 1
  {
    F.alphaPow(src * codedId % (F.order - 1))
  }

  function CoefAt<T(==)>(F: Field<T>, ev: EncodingVector<T>, i: nat): T
    requires F.order > 1 && WellFormed(ev) && i < |ev.ids|
  {
    if ev.coefs != [] then ev.coefs[i] else Vandermonde(F, ev.ids[i], ev.codedId)
  }

  // The map that the first n entries build: a later entry for an id replaces an earlier one,
  // unless it is zero.
  function CoefMap<T(==)>(F: Field<T>, ev: EncodingVector<T>, n: nat): (m: map<nat, T>)
    requires F.order > 1 && WellFormed(ev) && n <= |ev.ids|
    ensures forall id :: id in m ==> id in ev.ids[..n] && m[id] != F.zero
  {
    if n == 0 then map[]
    else
      var m := CoefMap(F, ev, n - 1);
      var c := CoefAt(F, ev, n - 1);
      assert ev.ids[..n] == ev.ids[..n - 1] + [ev.ids[n - 1]];
      if c == F.zero then m else m[ev.ids[n - 1] := c]
  }
}
