// One equation of the decoder: a dense coefficient row and a payload.

module Rows {
  import opened Fields
  import opened Keys

  // Coefficients of the ids base, base + 1, ...; every other id has coefficient zero.
  datatype Dense<T> = Dense(base: nat, coefs: seq<T>)

  datatype Row<T> = Row(dense: Dense<T>, payload: seq<T>)

  function End<T>(d: Dense<T>): nat {
    d.base + |d.coefs|
  }

  function Get<T>(F: Field<T>, d: Dense<T>, id: nat): T {
    if d.base <= id < End(d) then d.coefs[id - d.base] else F.zero
  }

  // ---------------------------------------------------------------- vectors

  // dst[i] + c * src[i] at every position.
  function MulAcc<T>(F: Field<T>, dst: seq<T>, src: seq<T>, c: T): (r: seq<T>)
    requires |dst| == |src|
    ensures |r| == |dst|
  {
    seq(|dst|, i requires 0 <= i < |dst| => F.add(dst[i], F.mul(c, src[i])))
  }

  function MulScale<T>(F: Field<T>, v: seq<T>, c: T): (r: seq<T>)
    ensures |r| == |v|
  {
    seq(|v|, i requires 0 <= i < |v| => F.mul(c, v[i]))
  }

  function Zeros<T>(F: Field<T>, n: nat): (r: seq<T>)
    ensures |r| == n
  {
    seq(n, _ => F.zero)
  }

  // ---------------------------------------------------------------- dense rows

  function EnsureCovers<T>(F: Field<T>, d: Dense<T>, id: nat): Dense<T> {
    if d.coefs == [] then Dense(id, [F.zero])
    else if id < d.base then Dense(id, Zeros(F, d.base - id) + d.coefs)
    else if End(d) <= id then Dense(d.base, d.coefs + Zeros(F, id + 1 - End(d)))
    else d
  }

  lemma EnsureCoversKeeps<T>(F: Field<T>, d: Dense<T>, id: nat)
    ensures var e := EnsureCovers(F, d, id);
            && e.base <= id < End(e)
            && (d.coefs != [] ==> e.base <= d.base && End(d) <= End(e))
            && forall j: nat :: Get(F, e, j) == Get(F, d, j)
  {
  }

  // The part of v that starts at off, accumulated with c * src.
  function AccAt<T>(F: Field<T>, v: seq<T>, off: nat, src: seq<T>, c: T): (r: seq<T>)
    requires off + |src| <= |v|
    ensures |r| == |v|
    ensures forall i :: 0 <= i < |v| ==>
      r[i] == if off <= i < off + |src| then F.add(v[i], F.mul(c, src[i - off])) else v[i]
  {
    v[..off] + MulAcc(F, v[off..off + |src|], src, c) + v[off + |src|..]
  }

  // The row after ensure_covers has been called on both ends of `other`.
  function Widen<T>(F: Field<T>, d: Dense<T>, other: Dense<T>): (e: Dense<T>)
    requires other.coefs != []
    ensures e.base <= other.base && End(other) <= End(e)
    ensures forall j: nat :: Get(F, e, j) == Get(F, d, j)
  {
    var left := EnsureCovers(F, d, other.base);
    EnsureCoversKeeps(F, d, other.base);
    EnsureCoversKeeps(F, left, End(other) - 1);
    EnsureCovers(F, left, End(other) - 1)
  }

  function DenseSubtract<T(==)>(F: Field<T>, d: Dense<T>, other: Dense<T>, factor: T): Dense<T> {
    if other.coefs == [] || factor == F.zero then d
    else
      var e := Widen(F, d, other);
      Dense(e.base, AccAt(F, e.coefs, other.base - e.base, other.coefs, factor))
  }

  lemma AccAtGet<T(!new)>(F: Field<T>, e: Dense<T>, other: Dense<T>, factor: T, id: nat)
    requires IsField(F) && e.base <= other.base && End(other) <= End(e)
    ensures Get(F, Dense(e.base, AccAt(F, e.coefs, other.base - e.base, other.coefs, factor)), id)
         == F.add(Get(F, e, id), F.mul(factor, Get(F, other, id)))
  {
  }

  lemma DenseSubtractGet<T(!new)>(F: Field<T>, d: Dense<T>, other: Dense<T>, factor: T, id: nat)
    requires IsField(F)
    ensures Get(F, DenseSubtract(F, d, other, factor), id)
         == F.add(Get(F, d, id), F.mul(factor, Get(F, other, id)))
  {
    if other.coefs != [] && factor != F.zero {
      AccAtGet(F, Widen(F, d, other), other, factor, id);
    }
  }

  function DenseScale<T>(F: Field<T>, d: Dense<T>, factor: T): Dense<T> {
    Dense(d.base, MulScale(F, d.coefs, factor))
  }

  lemma DenseScaleGet<T(!new)>(F: Field<T>, d: Dense<T>, factor: T, id: nat)
    requires IsField(F)
    ensures Get(F, DenseScale(F, d, factor), id) == F.mul(factor, Get(F, d, id))
  {
  }

  function Remove<T>(F: Field<T>, d: Dense<T>, id: nat): (r: Dense<T>)
    ensures forall j: nat :: Get(F, r, j) == if j == id then F.zero else Get(F, d, j)
  {
    if d.base <= id < End(d) then Dense(d.base, d.coefs[id - d.base := F.zero]) else d
  }

  // The smallest id at or above `from` with a coefficient.
  function NextNonzero<T(==)>(F: Field<T>, d: Dense<T>, from: nat): (r: Option<nat>)
    ensures r.None? ==> forall j: nat :: from <= j ==> Get(F, d, j) == F.zero
    ensures r.Some? ==> from <= r.value < End(d) && Get(F, d, r.value) != F.zero
    ensures r.Some? ==> forall j: nat :: from <= j < r.value ==> Get(F, d, j) == F.zero
    decreases End(d) - from
  {
    if End(d) <= from then None
    else if Get(F, d, from) != F.zero then Some(from)
    else NextNonzero(F, d, from + 1)
  }

  function PivotId<T(==)>(F: Field<T>, d: Dense<T>): Option<nat> {
    NextNonzero(F, d, d.base)
  }

  predicate IsZero<T(==)>(F: Field<T>, d: Dense<T>) {
    PivotId(F, d).None?
  }

  // The id of the only coefficient, when there is exactly one.
  function IsSolved<T(==)>(F: Field<T>, d: Dense<T>): Option<nat> {
    match PivotId(F, d)
    case None => None
    case Some(id) => if NextNonzero(F, d, id + 1).None? then Some(id) else None
  }

  ghost predicate Only<T>(F: Field<T>, d: Dense<T>, id: nat) {
    && Get(F, d, id) != F.zero
    && forall j: nat :: j != id ==> Get(F, d, j) == F.zero
  }

  lemma IsSolvedOnly<T(!new)>(F: Field<T>, d: Dense<T>, id: nat)
    ensures IsSolved(F, d) == Some(id) <==> Only(F, d, id)
  {
    if Only(F, d, id) {
      assert d.base <= id < End(d);
      assert PivotId(F, d) == Some(id);
      assert NextNonzero(F, d, id + 1).None?;
    }
  }

  // A zero row of n coefficients from lo on, with the entries of m for `ids` written into it.
  function Fill<T>(F: Field<T>, m: map<nat, T>, ids: seq<nat>, lo: nat, n: nat): (c: seq<T>)
    requires forall i :: 0 <= i < |ids| ==> ids[i] in m && lo <= ids[i] < lo + n
    ensures |c| == n
    ensures forall k: nat {:trigger k in ids} :: lo <= k < lo + n ==>
      c[k - lo] == if k in ids then m[k] else F.zero
  {
    if ids == [] then Zeros(F, n)
    else
      var init, id := ids[..|ids| - 1], ids[|ids| - 1];
      assert forall k :: k in ids <==> k in init || k == id;
      Fill(F, m, init, lo, n)[id - lo := m[id]]
  }

  // The row from the first to the last of `ids`, the keys of m in order.
  function FromEntries<T>(F: Field<T>, m: map<nat, T>, ids: seq<nat>): (d: Dense<T>)
    requires Enumerates(ids, m.Keys)
    ensures forall id: nat :: Get(F, d, id) == if id in m then m[id] else F.zero
  {
    if ids == [] then Dense(0, [])
    else
      var lo, n := ids[0], ids[|ids| - 1] + 1 - ids[0];
      assert forall id: nat :: id in ids ==> lo <= id < lo + n;
      assert forall id: nat :: id in ids <==> id in m;
      Dense(lo, Fill(F, m, ids, lo, n))
  }

  function FromMap<T>(F: Field<T>, m: map<nat, T>): (d: Dense<T>)
    ensures forall id: nat :: Get(F, d, id) == if id in m then m[id] else F.zero
  {
    SortedEnumerates(m.Keys);
    FromEntries(F, m, Sorted(m.Keys))
  }

  // ---------------------------------------------------------------- what a row says

  // The sum of Get(d, i) * x(i) over the ids below hi.
  ghost function Dot<T>(F: Field<T>, d: Dense<T>, x: Assignment<T>, hi: nat): T {
    if hi == 0 then F.zero else F.add(Dot(F, d, x, hi - 1), F.mul(Get(F, d, hi - 1), x(hi - 1)))
  }

  // Zero exactly when x satisfies the equation at payload position p.
  ghost function Residual<T>(F: Field<T>, r: Row<T>, x: Assignment<T>, p: nat): T
    requires p < |r.payload|
  {
    F.add(r.payload[p], Dot(F, r.dense, x, End(r.dense)))
  }

  lemma {:induction false} DotBeyond<T(!new)>(F: Field<T>, d: Dense<T>, x: Assignment<T>, hi: nat)
    requires IsField(F) && End(d) <= hi
    ensures Dot(F, d, x, hi) == Dot(F, d, x, End(d))
  {
    if End(d) < hi {
      DotBeyond(F, d, x, hi - 1);
    }
  }

  lemma {:induction false} DotCombine<T(!new)>(
    F: Field<T>, d: Dense<T>, other: Dense<T>, f: T, sum: Dense<T>, x: Assignment<T>, hi: nat)
    requires IsField(F)
    requires forall i: nat :: i < hi ==> Get(F, sum, i) == F.add(Get(F, d, i), F.mul(f, Get(F, other, i)))
    ensures Dot(F, sum, x, hi) == F.add(Dot(F, d, x, hi), F.mul(f, Dot(F, other, x, hi)))
  {
    if hi > 0 {
      var i := hi - 1;
      var a, b, xi := Get(F, d, i), Get(F, other, i), x(i);
      DotCombine(F, d, other, f, sum, x, i);
      Distribute(F, xi, a, F.mul(f, b));
      Laws(F, f, b, xi);
      Distribute(F, f, Dot(F, other, x, i), F.mul(b, xi));
      AddShuffle(F, Dot(F, d, x, i), F.mul(f, Dot(F, other, x, i)), F.mul(a, xi), F.mul(f, F.mul(b, xi)));
    }
  }

  lemma {:induction false} DotOnly<T(!new)>(F: Field<T>, d: Dense<T>, x: Assignment<T>, id: nat, hi: nat)
    requires IsField(F)
    requires forall i: nat :: i < hi && i != id ==> Get(F, d, i) == F.zero || x(i) == F.zero
    ensures Dot(F, d, x, hi) == if id < hi then F.mul(Get(F, d, id), x(id)) else F.zero
  {
    if hi > 0 {
      DotOnly(F, d, x, id, hi - 1);
    }
  }

  lemma {:induction false} DotAdd<T(!new)>(
    F: Field<T>, d: Dense<T>, x: Assignment<T>, v: Assignment<T>, sum: Assignment<T>, hi: nat)
    requires IsField(F)
    requires forall i: nat :: sum(i) == F.add(x(i), v(i))
    ensures Dot(F, d, sum, hi) == F.add(Dot(F, d, x, hi), Dot(F, d, v, hi))
  {
    if hi > 0 {
      var i := hi - 1;
      var c := Get(F, d, i);
      DotAdd(F, d, x, v, sum, i);
      Distribute(F, c, x(i), v(i));
      AddShuffle(F, Dot(F, d, x, i), Dot(F, d, v, i), F.mul(c, x(i)), F.mul(c, v(i)));
    }
  }

  // Assignments that agree where the row has coefficients give the same sum.
  lemma {:induction false} DotAgree<T(!new)>(F: Field<T>, d: Dense<T>, x: Assignment<T>, y: Assignment<T>, hi: nat)
    requires IsField(F)
    requires forall i: nat :: i < hi ==> Get(F, d, i) == F.zero || x(i) == y(i)
    ensures Dot(F, d, x, hi) == Dot(F, d, y, hi)
  {
    if hi > 0 {
      DotAgree(F, d, x, y, hi - 1);
    }
  }

  // ---------------------------------------------------------------- row operations

  function RowSubtract<T(==)>(F: Field<T>, r: Row<T>, other: Row<T>, factor: T): (s: Row<T>)
    requires |r.payload| == |other.payload|
    ensures |s.payload| == |r.payload|
  {
    Row(DenseSubtract(F, r.dense, other.dense, factor), MulAcc(F, r.payload, other.payload, factor))
  }

  lemma ResidualSubtract<T(!new)>(F: Field<T>, r: Row<T>, other: Row<T>, f: T, x: Assignment<T>, p: nat)
    requires IsField(F) && |r.payload| == |other.payload| && p < |r.payload|
    ensures Residual(F, RowSubtract(F, r, other, f), x, p)
         == F.add(Residual(F, r, x, p), F.mul(f, Residual(F, other, x, p)))
  {
    var s := RowSubtract(F, r, other, f);
    var hi := End(s.dense) + End(r.dense) + End(other.dense);
    forall i: nat | i < hi
      ensures Get(F, s.dense, i) == F.add(Get(F, r.dense, i), F.mul(f, Get(F, other.dense, i)))
    {
      DenseSubtractGet(F, r.dense, other.dense, f, i);
    }
    DotCombine(F, r.dense, other.dense, f, s.dense, x, hi);
    DotBeyond(F, s.dense, x, hi);
    DotBeyond(F, r.dense, x, hi);
    DotBeyond(F, other.dense, x, hi);
    var dr, do := Dot(F, r.dense, x, hi), Dot(F, other.dense, x, hi);
    AddShuffle(F, r.payload[p], F.mul(f, other.payload[p]), dr, F.mul(f, do));
    Distribute(F, f, other.payload[p], do);
  }

  function Substitute<T(==)>(F: Field<T>, r: Row<T>, id: nat, data: seq<T>): (s: Row<T>)
    requires |r.payload| == |data|
    ensures |s.payload| == |r.payload|
    ensures forall j: nat :: Get(F, s.dense, j) == if j == id then F.zero else Get(F, r.dense, j)
  {
    var c := Get(F, r.dense, id);
    if c == F.zero then r else Row(Remove(F, r.dense, id), MulAcc(F, r.payload, data, c))
  }

  lemma {:induction false} DotRemove<T(!new)>(F: Field<T>, d: Dense<T>, e: Dense<T>, id: nat, x: Assignment<T>, hi: nat)
    requires IsField(F) && id < hi
    requires forall j: nat :: Get(F, e, j) == if j == id then F.zero else Get(F, d, j)
    ensures Dot(F, d, x, hi) == F.add(Dot(F, e, x, hi), F.mul(Get(F, d, id), x(id)))
  {
    var i := hi - 1;
    if i == id {
      DotSame(F, d, e, x, i);
    } else {
      DotRemove(F, d, e, id, x, i);
      var t, u := F.mul(Get(F, d, id), x(id)), F.mul(Get(F, d, i), x(i));
      Laws(F, Dot(F, e, x, i), t, u);
      Laws(F, t, u, u);
      Laws(F, Dot(F, e, x, i), u, t);
    }
  }

  lemma {:induction false} DotSame<T(!new)>(F: Field<T>, d: Dense<T>, e: Dense<T>, x: Assignment<T>, hi: nat)
    requires forall j: nat :: j < hi ==> Get(F, e, j) == Get(F, d, j)
    ensures Dot(F, d, x, hi) == Dot(F, e, x, hi)
  {
    if hi > 0 {
      DotSame(F, d, e, x, hi - 1);
    }
  }

  // Moving a known symbol to the payload side keeps the equation.
  lemma ResidualSubstitute<T(!new)>(F: Field<T>, r: Row<T>, id: nat, data: seq<T>, x: Assignment<T>, p: nat)
    requires IsField(F) && |r.payload| == |data| && p < |data|
    requires x(id) == data[p]
    ensures Residual(F, Substitute(F, r, id, data), x, p) == Residual(F, r, x, p)
  {
    var s := Substitute(F, r, id, data);
    var c := Get(F, r.dense, id);
    if c != F.zero {
      var hi := End(r.dense);
      assert id < hi && End(s.dense) == hi;
      DotRemove(F, r.dense, s.dense, id, x, hi);
      var t, e := F.mul(c, data[p]), Dot(F, s.dense, x, hi);
      Laws(F, r.payload[p], t, e);
      Laws(F, t, e, e);
    }
  }

  function RowScale<T>(F: Field<T>, r: Row<T>, c: T): Row<T> {
    Row(DenseScale(F, r.dense, c), MulScale(F, r.payload, c))
  }

  lemma {:induction false} DotScale<T(!new)>(F: Field<T>, d: Dense<T>, c: T, x: Assignment<T>, hi: nat)
    requires IsField(F)
    ensures Dot(F, DenseScale(F, d, c), x, hi) == F.mul(c, Dot(F, d, x, hi))
  {
    if hi > 0 {
      var i := hi - 1;
      DotScale(F, d, c, x, i);
      DenseScaleGet(F, d, c, i);
      Laws(F, c, Get(F, d, i), x(i));
      Distribute(F, c, Dot(F, d, x, i), F.mul(Get(F, d, i), x(i)));
    }
  }

  lemma ResidualScale<T(!new)>(F: Field<T>, r: Row<T>, c: T, x: Assignment<T>, p: nat)
    requires IsField(F) && p < |r.payload|
    ensures Residual(F, RowScale(F, r, c), x, p) == F.mul(c, Residual(F, r, x, p))
  {
    DotScale(F, r.dense, c, x, End(r.dense));
    Distribute(F, c, r.payload[p], Dot(F, r.dense, x, End(r.dense)));
  }

  // Divide the row by its leading coefficient.
  function Normalize<T(==)>(F: Field<T>, r: Row<T>): (s: Row<T>)
    requires PivotId(F, r.dense).Some?
    ensures |s.payload| == |r.payload|
  {
    var c := Get(F, r.dense, PivotId(F, r.dense).value);
    if c == F.one then r else RowScale(F, r, F.inv(c))
  }

  lemma NormalizeCorrect<T(!new)>(F: Field<T>, r: Row<T>)
    requires IsField(F) && PivotId(F, r.dense).Some?
    ensures var q, s := PivotId(F, r.dense).value, Normalize(F, r);
            && PivotId(F, s.dense) == Some(q)
            && Get(F, s.dense, q) == F.one
            && (forall j: nat :: Get(F, s.dense, j) == F.zero <==> Get(F, r.dense, j) == F.zero)
            && (forall x: Assignment<T>, p: nat :: p < |r.payload| ==>
                  (Residual(F, s, x, p) == F.zero <==> Residual(F, r, x, p) == F.zero))
  {
    var q := PivotId(F, r.dense).value;
    var c := Get(F, r.dense, q);
    var s := Normalize(F, r);
    if c != F.one {
      Inverse(F, c);
      forall j: nat ensures Get(F, s.dense, j) == F.mul(F.inv(c), Get(F, r.dense, j))
                    ensures Get(F, s.dense, j) == F.zero <==> Get(F, r.dense, j) == F.zero {
        DenseScaleGet(F, r.dense, F.inv(c), j);
        NoZeroDivisors(F, F.inv(c), Get(F, r.dense, j));
      }
      forall x: Assignment<T>, p: nat | p < |r.payload|
        ensures Residual(F, s, x, p) == F.zero <==> Residual(F, r, x, p) == F.zero
      {
        ResidualScale(F, r, F.inv(c), x, p);
        NoZeroDivisors(F, F.inv(c), Residual(F, r, x, p));
      }
    }
    assert PivotId(F, s.dense) == Some(q);
  }
}
