// A field from the powers of a generator: multiply by adding logarithms.

module LogTables {
  import opened Fields

  // `alpha(i)` is the i-th power, `log` its inverse below n, and `shift(a, k)` is a times alpha(k).
  datatype Powers<!T> = Powers(
    n: nat,
    zero: T,
    add: (T, T) -> T,
    alpha: nat -> T,
    log: T -> nat,
    shift: (T, nat) -> T
  )

  // Naming an exponent instantiates the laws of exponents at it.
  ghost predicate Exponent(m: nat) { true }

  ghost predicate AddCommutes<T(!new)>(G: Powers<T>) {
    forall a, b {:trigger At(a, b, b)} :: G.add(a, b) == G.add(b, a)
  }

  ghost predicate AddAssociates<T(!new)>(G: Powers<T>) {
    forall a, b, c {:trigger At(a, b, c)} :: G.add(G.add(a, b), c) == G.add(a, G.add(b, c))
  }

  ghost predicate AddCancels<T(!new)>(G: Powers<T>) {
    forall a :: G.add(a, G.zero) == a && G.add(a, a) == G.zero
  }

  ghost predicate PowerLaws<T>(G: Powers<T>, m: nat, k: nat)
    requires G.n > 0
  {
    && G.alpha(m) != G.zero
    && G.alpha(m) == G.alpha(m % G.n)
    && G.log(G.alpha(m)) == m % G.n
    && G.shift(G.alpha(m), k) == G.alpha(m + k)
    && G.shift(G.zero, k) == G.zero
  }

  ghost predicate Cyclic<T(!new)>(G: Powers<T>) {
    && G.n > 0
    && AddCommutes(G) && AddAssociates(G) && AddCancels(G)
    && (forall m: nat, k: nat {:trigger Exponent(m), Exponent(k)} :: PowerLaws(G, m, k))
    && (forall a, b, k: nat {:trigger G.shift(G.add(a, b), k)} ::
          G.shift(G.add(a, b), k) == G.add(G.shift(a, k), G.shift(b, k)))
    && (forall a :: a != G.zero ==> G.log(a) < G.n && G.alpha(G.log(a)) == a)
  }

  function Mul<T(==)>(G: Powers<T>, a: T, b: T): T {
    if a == G.zero || b == G.zero then G.zero else G.alpha(G.log(a) + G.log(b))
  }

  // The source panics on zero; zero here.
  function Inv<T(==)>(G: Powers<T>, a: T): T {
    if a == G.zero || G.n < G.log(a) then G.zero else G.alpha(G.n - G.log(a))
  }

  function MakeField<T(==)>(G: Powers<T>, fromByte: nat -> T): Field<T>
    requires G.n > 0
  {
    Field(G.n + 1, G.zero, G.alpha(0), G.add, (a, b) => Mul(G, a, b), a => Inv(G, a),
          (i: nat) => G.alpha(i % G.n), fromByte)
  }

  lemma Power<T(!new)>(G: Powers<T>, m: nat, k: nat)
    requires Cyclic(G)
    ensures PowerLaws(G, m, k)
  {
    assert Exponent(m) && Exponent(k);
  }

  lemma SameMod(m: nat, k: nat, n: nat)
    requires n > 0
    ensures (m % n + k % n) % n == (m + k) % n
  {
    var i, j := m / n, k / n;
    var r := m % n + k % n;
    assert m + k == n * (i + j) + r by {
      assert m == n * i + m % n && k == n * j + k % n;
      assert n * (i + j) == n * i + n * j;
    }
    AddMultiple(r, i + j, n);
  }

  lemma {:induction false} AddMultiple(r: nat, q: nat, n: nat)
    requires n > 0
    ensures (n * q + r) % n == r % n
  {
    if q > 0 {
      AddMultiple(r, q - 1, n);
      AddOne(n * (q - 1) + r, n);
      assert n * q == n * (q - 1) + n;
    }
  }

  lemma AddOne(m: nat, n: nat)
    requires n > 0
    ensures (m + n) % n == m % n
  {
    var q := m / n;
    assert m + n == n * (q + 1) + m % n by {
      assert n * (q + 1) == n * q + n;
    }
    Remainder(m + n, q + 1, m % n, n);
  }

  lemma Multiple(n: int, d: int)
    requires n > 0
    ensures d >= 1 ==> n * d >= n
    ensures d <= -1 ==> n * d <= -n
  {
    if d >= 1 {
      assert n * d == n + n * (d - 1);
    } else if d <= -1 {
      assert n * d == -n - n * (-d - 1);
    }
  }

  lemma Remainder(m: nat, q: nat, r: nat, n: nat)
    requires m == n * q + r && r < n
    ensures m % n == r
  {
    var d := m / n - q;
    Multiple(n, d);
    assert n * d == n * (m / n) - n * q;
  }

  lemma MulAlpha<T(!new)>(G: Powers<T>, m: nat, k: nat)
    requires Cyclic(G)
    ensures Mul(G, G.alpha(m), G.alpha(k)) == G.alpha(m + k)
  {
    Power(G, m, k);
    Power(G, k, m);
    Power(G, m % G.n + k % G.n, 0);
    Power(G, m + k, 0);
    SameMod(m, k, G.n);
  }

  lemma MulZero<T(!new)>(G: Powers<T>, a: T, b: T)
    requires Cyclic(G)
    ensures Mul(G, a, b) == G.zero <==> a == G.zero || b == G.zero
  {
    Power(G, G.log(a) + G.log(b), 0);
  }

  lemma MulAssociative<T(!new)>(G: Powers<T>, a: T, b: T, c: T)
    requires Cyclic(G)
    ensures Mul(G, Mul(G, a, b), c) == Mul(G, a, Mul(G, b, c))
  {
    if a != G.zero && b != G.zero && c != G.zero {
      var i, j, k := G.log(a), G.log(b), G.log(c);
      MulAlpha(G, i, j);
      MulAlpha(G, j, k);
      MulAlpha(G, i + j, k);
      MulAlpha(G, i, j + k);
    } else {
      MulZero(G, a, b);
      MulZero(G, b, c);
    }
  }

  lemma MulShifts<T(!new)>(G: Powers<T>, a: T, b: T)
    requires Cyclic(G) && a != G.zero
    ensures Mul(G, a, b) == G.shift(b, G.log(a))
  {
    if b == G.zero {
      Power(G, 0, G.log(a));
    } else {
      Power(G, G.log(b), G.log(a));
    }
  }

  lemma MulPower<T(!new)>(G: Powers<T>, a: T, k: nat)
    requires Cyclic(G)
    ensures Mul(G, a, G.alpha(k)) == G.shift(a, k)
  {
    Power(G, 0, k);
    if a != G.zero {
      MulAlpha(G, G.log(a), k);
      Power(G, G.log(a), k);
    }
  }

  lemma MulDistributes<T(!new)>(G: Powers<T>, a: T, b: T, c: T)
    requires Cyclic(G)
    ensures Mul(G, a, G.add(b, c)) == G.add(Mul(G, a, b), Mul(G, a, c))
  {
    if a != G.zero {
      MulShifts(G, a, b);
      MulShifts(G, a, c);
      MulShifts(G, a, G.add(b, c));
    }
  }

  lemma MulOne<T(!new)>(G: Powers<T>, a: T)
    requires Cyclic(G)
    ensures Mul(G, G.alpha(0), a) == a && Mul(G, a, G.alpha(0)) == a
  {
    Power(G, 0, 0);
    if a != G.zero {
      MulAlpha(G, 0, G.log(a));
      MulAlpha(G, G.log(a), 0);
    }
  }

  lemma MulInverse<T(!new)>(G: Powers<T>, a: T)
    requires Cyclic(G) && a != G.zero
    ensures Mul(G, a, Inv(G, a)) == G.alpha(0)
  {
    MulAlpha(G, G.log(a), G.n - G.log(a));
    Power(G, G.n, 0);
    AddOne(0, G.n);
  }

  lemma LawsHold<T(!new)>(G: Powers<T>, fromByte: nat -> T, a: T, b: T, c: T)
    requires Cyclic(G)
    ensures LawsAt(MakeField(G, fromByte), a, b, c)
  {
    assert At(a, b, c) && At(a, b, b);
    MulAssociative(G, a, b, c);
    MulDistributes(G, a, b, c);
    if a != G.zero {
      MulInverse(G, a);
    }
  }

  // Log and exp tables of a generator make a field.
  lemma MakesField<T(!new)>(G: Powers<T>, fromByte: nat -> T)
    requires Cyclic(G)
    ensures IsField(MakeField(G, fromByte))
  {
    var F := MakeField(G, fromByte);
    Power(G, 0, 0);
    forall a ensures F.add(a, F.zero) == a && F.add(F.zero, a) == a && F.add(a, a) == F.zero {
      assert At(G.zero, a, a);
    }
    forall a ensures F.mul(a, F.one) == a && F.mul(F.one, a) == a {
      MulOne(G, a);
    }
    forall a, b, c ensures LawsAt(F, a, b, c) {
      LawsHold(G, fromByte, a, b, c);
    }
  }

  lemma MakesGenerated<T(!new)>(G: Powers<T>, fromByte: nat -> T)
    requires Cyclic(G) && (G.n == 15 || G.n == 255)
    requires forall i: nat, j: nat :: i < j <= G.n ==> fromByte(i) != fromByte(j)
    ensures IsGenerated(MakeField(G, fromByte))
  {
    var F := MakeField(G, fromByte);
    MakesField(G, fromByte);
    forall m: nat, k: nat ensures PowersAt(F, m, k) {
      PowersHold(G, fromByte, m, k);
    }
  }

  lemma PowersHold<T(!new)>(G: Powers<T>, fromByte: nat -> T, m: nat, k: nat)
    requires Cyclic(G)
    ensures PowersAt(MakeField(G, fromByte), m, k)
  {
    MulAlpha(G, m % G.n, k % G.n);
    Power(G, m % G.n + k % G.n, 0);
    SameMod(m, k, G.n);
    Power(G, m, 0);
    Power(G, k, 0);
  }
}
