// The coefficient matrices have no kernel, for every size.

module Solvability {
  import opened Fields

  ghost predicate AllZero<T>(F: Field<T>, v: seq<T>) {
    forall i :: 0 <= i < |v| ==> v[i] == F.zero
  }

  ghost predicate Different<T>(s: seq<T>) {
    forall i, j :: 0 <= i < j < |s| ==> s[i] != s[j]
  }

  // ---------------------------------------------------------------- Cauchy

  ghost predicate Apart<T>(xs: seq<T>, y: T) {
    forall i :: 0 <= i < |xs| ==> xs[i] != y
  }

  // The sum of v[i] / (xs[i] + y).
  ghost function CauchySum<T>(F: Field<T>, xs: seq<T>, v: seq<T>, y: T): T
    requires |v| == |xs|
  {
    if xs == [] then F.zero
    else F.add(F.mul(v[0], F.inv(F.add(xs[0], y))), CauchySum(F, xs[1..], v[1..], y))
  }

  // Eliminating x0 with the equation at y0 scales the other unknowns.
  ghost function Scaled<T>(F: Field<T>, xs: seq<T>, v: seq<T>, x0: T, y0: T): (w: seq<T>)
    requires |v| == |xs|
    ensures |w| == |xs|
  {
    seq(|xs|, i requires 0 <= i < |xs| => F.mul(F.mul(v[i], F.add(x0, xs[i])), F.inv(F.add(xs[i], y0))))
  }

  // s v a + p v a, with p a == 1.
  lemma OneSide<T(!new)>(F: Field<T>, s: T, p: T, v: T, a: T)
    requires IsField(F) && F.mul(p, a) == F.one
    ensures F.mul(F.add(s, p), F.mul(v, a)) == F.add(F.mul(F.mul(v, s), a), v)
  {
    Distribute(F, F.mul(v, a), s, p);
    Laws(F, s, v, a);
    Laws(F, v, s, a);
    Laws(F, p, F.mul(v, a), a);
    Laws(F, v, a, p);
    Laws(F, a, p, p);
  }

  // ((x0+y)/(x+y) + (x0+y0)/(x+y0)) v == (y+y0)/(x+y) * v (x0+x)/(x+y0)
  lemma CauchyTerm<T(!new)>(F: Field<T>, x0: T, x: T, y0: T, y: T, v: T)
    requires IsField(F) && x != y && x != y0
    ensures F.add(F.mul(F.add(x0, y), F.mul(v, F.inv(F.add(x, y)))),
                  F.mul(F.add(x0, y0), F.mul(v, F.inv(F.add(x, y0)))))
         == F.mul(F.add(y, y0),
                  F.mul(F.mul(F.mul(v, F.add(x0, x)), F.inv(F.add(x, y0))), F.inv(F.add(x, y))))
  {
    var s, p, q := F.add(x0, x), F.add(x, y), F.add(x, y0);
    SumZero(F, x, y);
    SumZero(F, x, y0);
    Inverse(F, p);
    Inverse(F, q);
    var a, b, u := F.inv(p), F.inv(q), F.mul(v, s);
    Telescope(F, x0, x, y);
    Telescope(F, x0, x, y0);
    Telescope(F, y, x, y0);
    Laws(F, y, x, x);
    OneSide(F, s, p, v, a);
    OneSide(F, s, q, v, b);
    assert F.add(F.add(F.mul(u, a), v), F.add(F.mul(u, b), v)) == F.add(F.mul(u, a), F.mul(u, b)) by {
      AddShuffle(F, F.mul(u, a), v, F.mul(u, b), v);
    }
    OtherSide(F, p, q, u, a, b);
  }

  // (a + x) + (x + b) == a + b
  lemma Telescope<T(!new)>(F: Field<T>, a: T, x: T, b: T)
    requires IsField(F)
    ensures F.add(F.add(a, x), F.add(x, b)) == F.add(a, b)
  {
    Laws(F, a, x, F.add(x, b));
    Laws(F, x, x, b);
  }

  lemma OtherSide<T(!new)>(F: Field<T>, p: T, q: T, u: T, a: T, b: T)
    requires IsField(F) && F.mul(p, a) == F.one && F.mul(q, b) == F.one
    ensures F.mul(F.add(p, q), F.mul(F.mul(u, b), a)) == F.add(F.mul(u, a), F.mul(u, b))
  {
    var t := F.mul(F.mul(u, b), a);
    Distribute(F, t, p, q);
    assert F.mul(p, t) == F.mul(u, b) by {
      Laws(F, p, t, t);
      Laws(F, F.mul(u, b), a, p);
      Laws(F, a, p, p);
    }
    assert F.mul(q, t) == F.mul(u, a) by {
      Laws(F, u, b, a);
      Laws(F, b, a, a);
      Laws(F, u, a, b);
      assert t == F.mul(F.mul(u, a), b);
      Laws(F, q, t, t);
      Laws(F, F.mul(u, a), b, q);
      Laws(F, b, q, q);
    }
    Laws(F, F.mul(u, b), F.mul(u, a), a);
  }

  lemma {:induction false} CauchyEliminate<T(!new)>(F: Field<T>, xs: seq<T>, v: seq<T>, x0: T, y0: T, y: T)
    requires IsField(F) && |v| == |xs| && Apart(xs, y) && Apart(xs, y0)
    ensures F.add(F.mul(F.add(x0, y), CauchySum(F, xs, v, y)), F.mul(F.add(x0, y0), CauchySum(F, xs, v, y0)))
         == F.mul(F.add(y, y0), CauchySum(F, xs, Scaled(F, xs, v, x0, y0), y))
  {
    if xs != [] {
      var w := Scaled(F, xs, v, x0, y0);
      CauchyEliminate(F, xs[1..], v[1..], x0, y0, y);
      assert w[1..] == Scaled(F, xs[1..], v[1..], x0, y0);
      CauchyTerm(F, x0, xs[0], y0, y, v[0]);
      var t, t0 := F.mul(v[0], F.inv(F.add(xs[0], y))), F.mul(v[0], F.inv(F.add(xs[0], y0)));
      var r, r0 := CauchySum(F, xs[1..], v[1..], y), CauchySum(F, xs[1..], v[1..], y0);
      Distribute(F, F.add(x0, y), t, r);
      Distribute(F, F.add(x0, y0), t0, r0);
      AddShuffle(F, F.mul(F.add(x0, y), t), F.mul(F.add(x0, y), r), F.mul(F.add(x0, y0), t0), F.mul(F.add(x0, y0), r0));
      Distribute(F, F.add(y, y0), F.mul(w[0], F.inv(F.add(xs[0], y))), CauchySum(F, xs[1..], w[1..], y));
    }
  }

  // A square Cauchy matrix has no kernel: k equations at k points determine k unknowns.
  lemma {:induction false} CauchyKernel<T(!new)>(F: Field<T>, xs: seq<T>, ys: seq<T>, v: seq<T>)
    requires IsField(F) && |v| == |xs| == |ys|
    requires Different(xs) && Different(ys) && forall j :: 0 <= j < |ys| ==> Apart(xs, ys[j])
    requires forall j :: 0 <= j < |ys| ==> CauchySum(F, xs, v, ys[j]) == F.zero
    ensures AllZero(F, v)
  {
    if xs != [] {
      var x0, y0 := xs[0], ys[0];
      var w := Scaled(F, xs[1..], v[1..], x0, y0);
      forall j | 0 <= j < |ys| - 1
        ensures Apart(xs[1..], ys[1..][j]) && CauchySum(F, xs[1..], w, ys[1..][j]) == F.zero
      {
        CauchyReduced(F, xs, v, y0, ys[j + 1]);
      }
      CauchyKernel(F, xs[1..], ys[1..], w);
      forall i | 0 <= i < |v| - 1 ensures v[1..][i] == F.zero {
        assert w[i] == F.zero && xs[1..][i] == xs[i + 1] && v[1..][i] == v[i + 1];
        UnscaledZero(F, v[i + 1], x0, xs[i + 1], y0);
      }
      CauchyHead(F, xs, v, y0);
    }
  }

  lemma CauchyReduced<T(!new)>(F: Field<T>, xs: seq<T>, v: seq<T>, y0: T, y: T)
    requires IsField(F) && |v| == |xs| > 0 && Apart(xs, y0) && Apart(xs, y) && y != y0
    requires CauchySum(F, xs, v, y0) == F.zero && CauchySum(F, xs, v, y) == F.zero
    ensures CauchySum(F, xs[1..], Scaled(F, xs[1..], v[1..], xs[0], y0), y) == F.zero
  {
    assert Apart(xs[1..], y0) && Apart(xs[1..], y);
    CauchyEliminate(F, xs[1..], v[1..], xs[0], y0, y);
    HeadTerm(F, xs, v, y0);
    HeadTerm(F, xs, v, y);
    SumZero(F, y, y0);
    NoZeroDivisors(F, F.add(y, y0), CauchySum(F, xs[1..], Scaled(F, xs[1..], v[1..], xs[0], y0), y));
  }

  lemma HeadTerm<T(!new)>(F: Field<T>, xs: seq<T>, v: seq<T>, y: T)
    requires IsField(F) && |v| == |xs| > 0 && xs[0] != y && CauchySum(F, xs, v, y) == F.zero
    ensures F.mul(F.add(xs[0], y), CauchySum(F, xs[1..], v[1..], y)) == v[0]
  {
    var d := F.add(xs[0], y);
    SumZero(F, xs[0], y);
    Inverse(F, d);
    var t, r := F.mul(v[0], F.inv(d)), CauchySum(F, xs[1..], v[1..], y);
    SumZero(F, t, r);
    Laws(F, d, t, t);
    Laws(F, v[0], F.inv(d), d);
  }

  lemma UnscaledZero<T(!new)>(F: Field<T>, v: T, x0: T, x: T, y0: T)
    requires IsField(F) && x0 != x && x != y0
    requires F.mul(F.mul(v, F.add(x0, x)), F.inv(F.add(x, y0))) == F.zero
    ensures v == F.zero
  {
    SumZero(F, x0, x);
    SumZero(F, x, y0);
    Inverse(F, F.add(x, y0));
    NoZeroDivisors(F, F.mul(v, F.add(x0, x)), F.inv(F.add(x, y0)));
    NoZeroDivisors(F, v, F.add(x0, x));
  }

  lemma {:induction false} CauchySumOfZero<T(!new)>(F: Field<T>, xs: seq<T>, v: seq<T>, y: T)
    requires IsField(F) && |v| == |xs| && AllZero(F, v)
    ensures CauchySum(F, xs, v, y) == F.zero
  {
    if xs != [] {
      CauchySumOfZero(F, xs[1..], v[1..], y);
    }
  }

  lemma CauchyHead<T(!new)>(F: Field<T>, xs: seq<T>, v: seq<T>, y0: T)
    requires IsField(F) && |v| == |xs| > 0 && Apart(xs, y0)
    requires CauchySum(F, xs, v, y0) == F.zero && AllZero(F, v[1..])
    ensures AllZero(F, v)
  {
    HeadTerm(F, xs, v, y0);
    CauchySumOfZero(F, xs[1..], v[1..], y0);
    assert forall i :: 1 <= i < |v| ==> v[i] == v[1..][i - 1];
  }

  // ---------------------------------------------------------------- Vandermonde

  ghost function Pow<T>(F: Field<T>, a: T, n: nat): T {
    if n == 0 then F.one else F.mul(Pow(F, a, n - 1), a)
  }

  // The sum of v[i] * points[i]^n.
  ghost function PowerSum<T>(F: Field<T>, points: seq<T>, v: seq<T>, n: nat): T
    requires |v| == |points|
  {
    if points == [] then F.zero
    else F.add(F.mul(v[0], Pow(F, points[0], n)), PowerSum(F, points[1..], v[1..], n))
  }

  ghost function Shifted<T>(F: Field<T>, points: seq<T>, v: seq<T>, a: T): (w: seq<T>)
    requires |v| == |points|
    ensures |w| == |points|
  {
    seq(|points|, i requires 0 <= i < |points| => F.mul(v[i], F.add(points[i], a)))
  }

  lemma PowerTerm<T(!new)>(F: Field<T>, v: T, b: T, a: T, n: nat)
    requires IsField(F)
    ensures F.add(F.mul(v, Pow(F, b, n + 1)), F.mul(a, F.mul(v, Pow(F, b, n))))
         == F.mul(F.mul(v, F.add(b, a)), Pow(F, b, n))
  {
    var m := Pow(F, b, n);
    Laws(F, v, F.add(b, a), m);
    Laws(F, F.add(b, a), m, m);
    Distribute(F, m, b, a);
    Distribute(F, v, F.mul(m, b), F.mul(m, a));
    Laws(F, a, F.mul(v, m), m);
    Laws(F, v, m, a);
  }

  lemma {:induction false} PowerEliminate<T(!new)>(F: Field<T>, points: seq<T>, v: seq<T>, a: T, n: nat)
    requires IsField(F) && |v| == |points|
    ensures F.add(PowerSum(F, points, v, n + 1), F.mul(a, PowerSum(F, points, v, n)))
         == PowerSum(F, points, Shifted(F, points, v, a), n)
  {
    if points != [] {
      var w := Shifted(F, points, v, a);
      PowerEliminate(F, points[1..], v[1..], a, n);
      assert w[1..] == Shifted(F, points[1..], v[1..], a);
      PowerTerm(F, v[0], points[0], a, n);
      var t, r := F.mul(v[0], Pow(F, points[0], n)), PowerSum(F, points[1..], v[1..], n);
      Distribute(F, a, t, r);
      AddShuffle(F, F.mul(v[0], Pow(F, points[0], n + 1)), PowerSum(F, points[1..], v[1..], n + 1), F.mul(a, t),
                 F.mul(a, r));
    }
  }

  // k consecutive powers of k different points have no kernel.
  lemma {:induction false} VandermondeKernel<T(!new)>(F: Field<T>, points: seq<T>, v: seq<T>)
    requires IsField(F) && |v| == |points| && Different(points)
    requires forall n: nat :: n < |points| ==> PowerSum(F, points, v, n) == F.zero
    ensures AllZero(F, v)
  {
    if points != [] {
      var a := points[0];
      var w := Shifted(F, points[1..], v[1..], a);
      forall n: nat | n < |points| - 1 ensures PowerSum(F, points[1..], w, n) == F.zero {
        PowerEliminate(F, points, v, a, n);
        var all := Shifted(F, points, v, a);
        assert all[1..] == w;
        assert all[0] == F.zero;
      }
      VandermondeKernel(F, points[1..], w);
      forall i | 0 <= i < |v| - 1 ensures v[1..][i] == F.zero {
        SumZero(F, points[i + 1], a);
        NoZeroDivisors(F, v[i + 1], F.add(points[i + 1], a));
        assert w[i] == F.zero;
      }
      PowerSumOfZero(F, points[1..], v[1..], 0);
      assert PowerSum(F, points, v, 0) == F.zero;
      assert forall i :: 1 <= i < |v| ==> v[i] == v[1..][i - 1];
    }
  }

  lemma {:induction false} PowerSumOfZero<T(!new)>(F: Field<T>, points: seq<T>, v: seq<T>, n: nat)
    requires IsField(F) && |v| == |points| && AllZero(F, v)
    ensures PowerSum(F, points, v, n) == F.zero
  {
    if points != [] {
      PowerSumOfZero(F, points[1..], v[1..], n);
    }
  }
}
