// The coefficient constructions and when their square matrices are solvable.

module Coefficients {
  import opened Fields
  import opened Equations
  import opened Solvability
  import opened LogTables

  // ---------------------------------------------------------------- Cauchy points

  // Ids fall on `cycle` source points; the coded points start at `base`, and each generation
  // moves them on by `stride`.
  function Cycle(order: nat): nat { if order == 256 then 128 else 7 }

  function Base(order: nat): nat { if order == 256 then 128 else 8 }

  function Stride(order: nat): nat { if order == 256 then 7 else 3 }

  function SourcePoint(order: nat, src: nat): (x: nat)
    ensures x < Base(order)
  {
    src % Cycle(order)
  }

  function CodedPoint(order: nat, codedId: nat, generation: nat): (y: nat)
    ensures Base(order) <= y < Base(order) + Cycle(order)
  {
    Base(order) + (codedId + generation * Stride(order)) % Cycle(order)
  }

  function Cauchy<T>(F: Field<T>, src: nat, codedId: nat, generation: nat): T {
    F.inv(F.add(F.fromByte(SourcePoint(F.order, src)), F.fromByte(CodedPoint(F.order, codedId, generation))))
  }

  function CauchyBatch<T>(F: Field<T>, ids: seq<nat>, codedId: nat, generation: nat): (r: seq<T>)
    ensures |r| == |ids|
  {
    seq(|ids|, i requires 0 <= i < |ids| => Cauchy(F, ids[i], codedId, generation))
  }

  function VandermondeBatch<T>(F: Field<T>, ids: seq<nat>, codedId: nat): (r: seq<T>)
    requires F.order > 1
    ensures |r| == |ids|
  {
    seq(|ids|, i requires 0 <= i < |ids| => Vandermonde(F, ids[i], codedId))
  }

  // The left side of a coded equation at unknowns v.
  ghost function CoefSum<T>(F: Field<T>, coefs: seq<T>, v: seq<T>): T
    requires |v| == |coefs|
  {
    if coefs == [] then F.zero else F.add(F.mul(v[0], coefs[0]), CoefSum(F, coefs[1..], v[1..]))
  }

  // ---------------------------------------------------------------- Cauchy solvability

  lemma PointsApart<T(!new)>(F: Field<T>, src: nat, codedId: nat, generation: nat)
    requires IsGenerated(F)
    ensures F.fromByte(SourcePoint(F.order, src)) != F.fromByte(CodedPoint(F.order, codedId, generation))
  {
    var x, y := SourcePoint(F.order, src), CodedPoint(F.order, codedId, generation);
    assert x < y < F.order;
  }

  lemma CauchyNonzero<T(!new)>(F: Field<T>, src: nat, codedId: nat, generation: nat)
    requires IsGenerated(F)
    ensures Cauchy(F, src, codedId, generation) != F.zero
  {
    PointsApart(F, src, codedId, generation);
    var x, y := F.fromByte(SourcePoint(F.order, src)), F.fromByte(CodedPoint(F.order, codedId, generation));
    SumZero(F, x, y);
    Inverse(F, F.add(x, y));
  }

  ghost function SourcePoints<T>(F: Field<T>, ids: seq<nat>): (xs: seq<T>)
    ensures |xs| == |ids|
  {
    seq(|ids|, i requires 0 <= i < |ids| => F.fromByte(SourcePoint(F.order, ids[i])))
  }

  lemma {:induction false} BatchIsCauchySum<T(!new)>(
    F: Field<T>, ids: seq<nat>, v: seq<T>, codedId: nat, generation: nat)
    requires |v| == |ids|
    ensures CoefSum(F, CauchyBatch(F, ids, codedId, generation), v)
         == CauchySum(F, SourcePoints(F, ids), v, F.fromByte(CodedPoint(F.order, codedId, generation)))
  {
    if ids != [] {
      BatchIsCauchySum(F, ids[1..], v[1..], codedId, generation);
      assert CauchyBatch(F, ids, codedId, generation)[1..] == CauchyBatch(F, ids[1..], codedId, generation);
      assert SourcePoints(F, ids)[1..] == SourcePoints(F, ids[1..]);
    }
  }

  // A coded packet's place in the construction.
  datatype Label = Label(codedId: nat, generation: nat)

  ghost predicate DistinctPoints(order: nat, labels: seq<Label>) {
    forall i, j :: 0 <= i < j < |labels| ==>
      CodedPoint(order, labels[i].codedId, labels[i].generation)
      != CodedPoint(order, labels[j].codedId, labels[j].generation)
  }

  ghost predicate DistinctMod(ids: seq<nat>, m: nat)
    requires m > 0
  {
    forall i, j :: 0 <= i < j < |ids| ==> ids[i] % m != ids[j] % m
  }

  // Any k coded packets with different points determine any k sources with different points.
  lemma CauchyDetermines<T(!new)>(F: Field<T>, ids: seq<nat>, labels: seq<Label>, v: seq<T>)
    requires IsGenerated(F) && |v| == |ids| == |labels|
    requires DistinctMod(ids, Cycle(F.order)) && DistinctPoints(F.order, labels)
    requires forall j :: 0 <= j < |labels| ==>
      CoefSum(F, CauchyBatch(F, ids, labels[j].codedId, labels[j].generation), v) == F.zero
    ensures AllZero(F, v)
  {
    var xs := SourcePoints(F, ids);
    var ys := seq(|labels|, j requires 0 <= j < |labels| =>
      F.fromByte(CodedPoint(F.order, labels[j].codedId, labels[j].generation)));
    forall i, j | 0 <= i < j < |xs| ensures xs[i] != xs[j] {
      BytesApart(F, SourcePoint(F.order, ids[i]), SourcePoint(F.order, ids[j]));
    }
    forall i, j | 0 <= i < j < |ys| ensures ys[i] != ys[j] {
      BytesApart(F, CodedPoint(F.order, labels[i].codedId, labels[i].generation),
                    CodedPoint(F.order, labels[j].codedId, labels[j].generation));
    }
    forall j | 0 <= j < |ys| ensures Apart(xs, ys[j]) && CauchySum(F, xs, v, ys[j]) == F.zero {
      forall i | 0 <= i < |xs| ensures xs[i] != ys[j] {
        PointsApart(F, ids[i], labels[j].codedId, labels[j].generation);
      }
      BatchIsCauchySum(F, ids, v, labels[j].codedId, labels[j].generation);
    }
    CauchyKernel(F, xs, ys, v);
  }

  lemma BytesApart<T(!new)>(F: Field<T>, i: nat, j: nat)
    requires IsGenerated(F) && i != j && i < F.order && j < F.order
    ensures F.fromByte(i) != F.fromByte(j)
  {
    if i < j {
      assert F.fromByte(i) != F.fromByte(j);
    } else {
      assert F.fromByte(j) != F.fromByte(i);
    }
  }

  // The converse on the source side: ids that meet mod the cycle have equal coefficients in
  // every packet, so no number of packets tells them apart.
  lemma CauchyCollision<T(!new)>(F: Field<T>, s: nat, t: nat, codedId: nat, generation: nat)
    requires IsGenerated(F) && s != t && s % Cycle(F.order) == t % Cycle(F.order)
    ensures CoefSum(F, CauchyBatch(F, [s, t], codedId, generation), [F.one, F.one]) == F.zero
  {
    var c := CauchyBatch(F, [s, t], codedId, generation);
    assert c[1..] == [c[1]] && c[0] == c[1];
    assert [F.one, F.one][1..] == [F.one];
    assert CoefSum(F, c[1..], [F.one]) == F.add(c[1], CoefSum(F, c[1..][1..], [F.one][1..]));
  }

  // ---------------------------------------------------------------- Vandermonde solvability

  lemma AlphaMod<T(!new)>(F: Field<T>, m: nat)
    requires IsGenerated(F)
    ensures F.alphaPow(m % (F.order - 1)) == F.alphaPow(m)
  {
    PowersOf(F, m % (F.order - 1), m);
    Remainder(m % (F.order - 1), 0, m % (F.order - 1), F.order - 1);
  }

  lemma ProductStep(m: nat, n: nat)
    requires n > 0
    ensures 0 <= m * (n - 1) && m * n == m * (n - 1) + m
  {
  }

  lemma {:induction false} PowOfAlpha<T(!new)>(F: Field<T>, m: nat, n: nat)
    requires IsGenerated(F)
    ensures Pow(F, F.alphaPow(m), n) == F.alphaPow(m * n)
  {
    if n > 0 {
      PowOfAlpha(F, m, n - 1);
      ProductStep(m, n);
      PowersOf(F, m * (n - 1), m);
    }
  }

  ghost function AlphaPoints<T>(F: Field<T>, ids: seq<nat>): (r: seq<T>)
    ensures |r| == |ids|
  {
    seq(|ids|, i requires 0 <= i < |ids| => F.alphaPow(ids[i]))
  }

  // v[i] * alpha^(ids[i] * c)
  ghost function Started<T>(F: Field<T>, ids: seq<nat>, v: seq<T>, c: nat): (r: seq<T>)
    requires |v| == |ids|
    ensures |r| == |ids|
  {
    seq(|ids|, i requires 0 <= i < |ids| => F.mul(v[i], F.alphaPow(ids[i] * c)))
  }

  lemma Spread(s: nat, c: nat, n: nat)
    ensures 0 <= s * c && 0 <= s * n && s * (c + n) == s * c + s * n
  {
  }

  lemma VandermondeTerm<T(!new)>(F: Field<T>, v: T, s: nat, c: nat, n: nat)
    requires IsGenerated(F)
    ensures F.mul(v, Vandermonde(F, s, c + n)) == F.mul(F.mul(v, F.alphaPow(s * c)), Pow(F, F.alphaPow(s), n))
  {
    PowOfAlpha(F, s, n);
    AlphaMod(F, s * (c + n));
    Spread(s, c, n);
    PowersOf(F, s * c, s * n);
    Laws(F, v, F.alphaPow(s * c), F.alphaPow(s * n));
  }

  lemma {:induction false} BatchIsPowerSum<T(!new)>(F: Field<T>, ids: seq<nat>, v: seq<T>, c: nat, n: nat)
    requires IsGenerated(F) && |v| == |ids|
    ensures CoefSum(F, VandermondeBatch(F, ids, c + n), v)
         == PowerSum(F, AlphaPoints(F, ids), Started(F, ids, v, c), n)
  {
    if ids != [] {
      BatchIsPowerSum(F, ids[1..], v[1..], c, n);
      assert VandermondeBatch(F, ids, c + n)[1..] == VandermondeBatch(F, ids[1..], c + n);
      assert AlphaPoints(F, ids)[1..] == AlphaPoints(F, ids[1..]);
      assert Started(F, ids, v, c)[1..] == Started(F, ids[1..], v[1..], c);
      VandermondeTerm(F, v[0], ids[0], c, n);
    }
  }

  // Any k consecutive coded ids determine any k sources that differ mod order - 1.
  lemma VandermondeDetermines<T(!new)>(F: Field<T>, ids: seq<nat>, c: nat, v: seq<T>)
    requires IsGenerated(F) && |v| == |ids| && DistinctMod(ids, F.order - 1)
    requires forall codedId: nat :: c <= codedId < c + |ids| ==>
      CoefSum(F, VandermondeBatch(F, ids, codedId), v) == F.zero
    ensures AllZero(F, v)
  {
    var points, w := AlphaPoints(F, ids), Started(F, ids, v, c);
    forall i, j | 0 <= i < j < |points| ensures points[i] != points[j] {
      PowersOf(F, ids[i], ids[j]);
    }
    forall n: nat | n < |points| ensures PowerSum(F, points, w, n) == F.zero {
      BatchIsPowerSum(F, ids, v, c, n);
    }
    VandermondeKernel(F, points, w);
    forall i | 0 <= i < |v| ensures v[i] == F.zero {
      assert w[i] == F.zero;
      PowersOf(F, ids[i] * c, 0);
      NoZeroDivisors(F, v[i], F.alphaPow(ids[i] * c));
    }
  }

  lemma SameRemainder(a: nat, b: nat, m: nat)
    requires m > 0
    ensures a % m == b % m <==> (a - b) % m == 0
  {
    var k := (a - b) / m;
    assert a - b == m * k + (a - b) % m;
    assert a == m * (a / m) + a % m && b == m * (b / m) + b % m;
    if a % m == b % m {
      assert a - b == m * (a / m - b / m);
      ExactMultiple(a - b, a / m - b / m, m);
    } else if (a - b) % m == 0 {
      assert a % m - b % m == m * (k - a / m + b / m);
      NoMultiple(a % m - b % m, k - a / m + b / m, m);
    }
  }

  lemma ExactMultiple(d: int, q: int, m: int)
    requires m > 0 && d == m * q
    ensures d % m == 0
  {
    assert d == m * (d / m) + d % m;
    NoMultiple(d % m, q - d / m, m);
  }

  lemma NoMultiple(d: int, q: int, m: int)
    requires -m < d < m && d == m * q
    ensures d == 0
  {
    Multiple(m, q);
  }

  lemma MinorRemainders<T(!new)>(F: Field<T>, s0: nat, s1: nat, c0: nat, c1: nat)
    requires IsGenerated(F)
    ensures F.add(F.mul(Vandermonde(F, s0, c0), Vandermonde(F, s1, c1)),
                  F.mul(Vandermonde(F, s1, c0), Vandermonde(F, s0, c1))) == F.zero
        <==> (s0 * c0 + s1 * c1) % (F.order - 1) == (s1 * c0 + s0 * c1) % (F.order - 1)
  {
    AlphaMod(F, s0 * c0);
    AlphaMod(F, s1 * c1);
    AlphaMod(F, s1 * c0);
    AlphaMod(F, s0 * c1);
    SumZero(F, F.mul(Vandermonde(F, s0, c0), Vandermonde(F, s1, c1)),
               F.mul(Vandermonde(F, s1, c0), Vandermonde(F, s0, c1)));
    PowersOf(F, s0 * c0, s1 * c1);
    PowersOf(F, s1 * c0, s0 * c1);
    PowersOf(F, s0 * c0 + s1 * c1, s1 * c0 + s0 * c1);
  }

  lemma ProductOfDistances(s0: nat, s1: nat, c0: nat, c1: nat)
    ensures (s0 * c0 + s1 * c1) - (s1 * c0 + s0 * c1) == (s1 - s0) * (c1 - c0)
  {
  }

  // For any two coded ids the 2 x 2 minor vanishes exactly when order - 1 divides the product
  // of the distances.
  lemma VandermondeMinor<T(!new)>(F: Field<T>, s0: nat, s1: nat, c0: nat, c1: nat)
    requires IsGenerated(F)
    ensures F.add(F.mul(Vandermonde(F, s0, c0), Vandermonde(F, s1, c1)),
                  F.mul(Vandermonde(F, s1, c0), Vandermonde(F, s0, c1))) == F.zero
        <==> (s1 - s0) * (c1 - c0) % (F.order - 1) == 0
  {
    MinorRemainders(F, s0, s1, c0, c1);
    SameRemainder(s0 * c0 + s1 * c1, s1 * c0 + s0 * c1, F.order - 1);
    ProductOfDistances(s0, s1, c0, c1);
  }

  // Two sources and two coded packets that cannot be solved in GF(2^8), within one window and cycle.
  lemma VandermondeSingular<T(!new)>(F: Field<T>)
    requires IsGenerated(F) && F.order == 256
    ensures F.add(F.mul(Vandermonde(F, 0, 1), Vandermonde(F, 15, 18)),
                  F.mul(Vandermonde(F, 15, 1), Vandermonde(F, 0, 18))) == F.zero
  {
    VandermondeMinor(F, 0, 15, 1, 18);
  }

  // ---------------------------------------------------------------- generation rotation

  // The label of the n-th coded packet of a Cauchy session over GF(2^8).
  function NthLabel(n: nat): Label {
    Label(n % 128, n / 128 % 256)
  }

  function NthPoint(n: nat): nat {
    CodedPoint(256, NthLabel(n).codedId, NthLabel(n).generation)
  }

  // The generation counter wraps without a trace: 7 * 256 is a multiple of 128.
  lemma PointOf(n: nat)
    ensures NthPoint(n) == 128 + (n + 7 * (n / 128)) % 128
  {
    var g := n / 128;
    assert g == 256 * (g / 256) + g % 256;
    assert n == 128 * g + n % 128;
    var k := n % 128 + (g % 256) * 7;
    assert n + 7 * g == k + 128 * (g + 14 * (g / 256));
    AddMultiple(k, g + 14 * (g / 256), 128);
  }

  lemma SameMod128(a: nat, b: nat)
    ensures (b - a) % 128 == 0 <==> a % 128 == b % 128
  {
  }

  // Two packets share a point exactly when their distance, plus 7 for every cycle boundary
  // between them, is a multiple of 128.
  lemma SamePoint(m: nat, n: nat)
    requires m <= n
    ensures NthPoint(m) == NthPoint(n) <==> ((n - m) + 7 * (n / 128 - m / 128)) % 128 == 0
  {
    PointOf(m);
    PointOf(n);
    SameMod128(m + 7 * (m / 128), n + 7 * (n / 128));
  }

  // Any 121 consecutive packets have different points, across every wrap ...
  lemma ConsecutivePointsDiffer(m: nat, n: nat)
    requires m < n <= m + 120
    ensures NthPoint(m) != NthPoint(n)
  {
    SamePoint(m, n);
    assert n / 128 - m / 128 == 0 || n / 128 - m / 128 == 1;
  }

  // ... and 121 is the most: 7 is followed 121 later by the same point.
  lemma RotationBoundTight()
    ensures NthPoint(7) == NthPoint(128)
  {
    SamePoint(7, 128);
  }

  // A generation uses every coded point once.
  lemma GenerationPermutes(generation: nat, c: nat, d: nat)
    requires c < 128 && d < 128 && c != d
    ensures CodedPoint(256, c, generation) != CodedPoint(256, d, generation)
  {
    var g := generation * 7;
    var lo, hi := if c < d then c else d, if c < d then d else c;
    assert (hi + g) % 128 != (lo + g) % 128;
  }

  // ---------------------------------------------------------------- the coefficients themselves

  // A Cauchy coefficient times the sum of its two points is one.
  lemma CauchyInverts<T(!new)>(F: Field<T>, src: nat, codedId: nat, generation: nat)
    requires IsGenerated(F)
    ensures F.order == 256 ==>
      F.mul(Cauchy(F, src, codedId, generation),
            F.add(F.fromByte(src % 128), F.fromByte(128 + (codedId + 7 * generation) % 128))) == F.one
    ensures F.order != 256 ==>
      F.mul(Cauchy(F, src, codedId, generation),
            F.add(F.fromByte(src % 7), F.fromByte(8 + (codedId + 3 * generation) % 7))) == F.one
  {
    PointsApart(F, src, codedId, generation);
    var x, y := F.fromByte(SourcePoint(F.order, src)), F.fromByte(CodedPoint(F.order, codedId, generation));
    SumZero(F, x, y);
    Inverse(F, F.add(x, y));
  }

  // Vandermonde coefficients are powers of alpha: each source is one step of alpha^codedId on.
  lemma VandermondeSteps<T(!new)>(F: Field<T>, src: nat, codedId: nat)
    requires IsGenerated(F)
    ensures Vandermonde(F, 0, codedId) == F.one
    ensures Vandermonde(F, src + 1, codedId) == F.mul(Vandermonde(F, src, codedId), F.alphaPow(codedId))
    ensures Vandermonde(F, src, 1) == F.alphaPow(src)
  {
    AlphaMod(F, 0 * codedId);
    AlphaMod(F, src * codedId);
    AlphaMod(F, (src + 1) * codedId);
    AlphaMod(F, src * 1);
    assert (src + 1) * codedId == src * codedId + codedId;
    PowersOf(F, src * codedId, codedId);
  }

  // ---------------------------------------------------------------- generation rotation over GF(2^4)

  function NthLabel16(n: nat): Label {
    Label(n % 7, n / 7 % 256)
  }

  function NthPoint16(n: nat): nat {
    CodedPoint(16, NthLabel16(n).codedId, NthLabel16(n).generation)
  }

  // The generation counter does leave a trace when it wraps: 3 * 256 is two short of a multiple of 7.
  lemma PointOf16(n: nat)
    ensures NthPoint16(n) == 8 + (n + 3 * (n / 7) + 2 * (n / 7 / 256)) % 7
  {
    var g, w := n / 7, n / 7 / 256;
    assert g == 256 * w + g % 256;
    assert n == 7 * g + n % 7;
    var k := n % 7 + (g % 256) * 3;
    assert n + 3 * g + 2 * w == k + 7 * (g + 110 * w);
    AddMultiple(k, g + 110 * w, 7);
  }

  lemma SameMod7(a: nat, b: nat)
    ensures (b - a) % 7 == 0 <==> a % 7 == b % 7
  {
  }

  // Two packets share a point exactly when their distance, plus 3 for every cycle boundary between them
  // and 2 for every wrap of the generation, is a multiple of 7.
  lemma SamePoint16(m: nat, n: nat)
    requires m <= n
    ensures NthPoint16(m) == NthPoint16(n)
       <==> ((n - m) + 3 * (n / 7 - m / 7) + 2 * (n / 7 / 256 - m / 7 / 256)) % 7 == 0
  {
    PointOf16(m);
    PointOf16(n);
    SameMod7(m + 3 * (m / 7) + 2 * (m / 7 / 256), n + 3 * (n / 7) + 2 * (n / 7 / 256));
  }

  // Of 4 consecutive packets two share a point exactly when the generation wraps between them and they
  // are two apart.
  lemma ConsecutivePoints16(m: nat, n: nat)
    requires m < n <= m + 3
    ensures NthPoint16(m) == NthPoint16(n) <==> n == m + 2 && n / 7 / 256 != m / 7 / 256
  {
    SamePoint16(m, n);
    assert n / 7 - m / 7 == 0 || n / 7 - m / 7 == 1;
    assert n / 7 / 256 - m / 7 / 256 == 0 || n / 7 / 256 - m / 7 / 256 == 1;
    assert n / 7 == m / 7 ==> n / 7 / 256 == m / 7 / 256;
  }

  // Four is the most, and the wrap does happen.
  lemma RotationBound16Tight()
    ensures NthPoint16(3) == NthPoint16(7) && NthPoint16(1790) == NthPoint16(1792)
  {
    SamePoint16(3, 7);
    ConsecutivePoints16(1790, 1792);
  }
}
