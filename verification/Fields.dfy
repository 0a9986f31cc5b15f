// Finite fields of characteristic 2, as a record of operations.
//
// The source fixes two fields behind one trait.  Everything that is proved about
// elimination and about the coefficient matrices is proved here for any record that
// satisfies the laws below; Gf8.dfy and Gf4.dfy show that the table-driven fields do.

module Fields {

  datatype Option<+T> = None | Some(value: T)

  // The members of the source's Field trait.  `fromByte` is only given bytes.
  datatype Field<!T> = Field(
    order: nat,
    zero: T,
    one: T,
    add: (T, T) -> T,
    mul: (T, T) -> T,
    inv: T -> T,
    alphaPow: nat -> T,
    fromByte: nat -> T
  )

  // A symbol position of every source symbol, indexed by source id.
  type Assignment<!T> = nat -> T

  // Naming three elements here instantiates the laws at them, and nothing else does:
  // associativity and commutativity would otherwise be applied without end.
  ghost predicate At<T>(a: T, b: T, c: T) { true }

  ghost predicate LawsAt<T>(F: Field<T>, a: T, b: T, c: T) {
    && F.add(a, b) == F.add(b, a)
    && F.add(F.add(a, b), c) == F.add(a, F.add(b, c))
    && F.mul(a, b) == F.mul(b, a)
    && F.mul(F.mul(a, b), c) == F.mul(a, F.mul(b, c))
    && F.mul(a, F.add(b, c)) == F.add(F.mul(a, b), F.mul(a, c))
    && (a != F.zero ==> F.mul(a, F.inv(a)) == F.one)
  }

  ghost predicate IsField<T(!new)>(F: Field<T>) {
    && F.one != F.zero
    && (forall a :: F.add(a, F.zero) == a)
    && (forall a :: F.add(F.zero, a) == a)
    && (forall a :: F.add(a, a) == F.zero)
    && (forall a :: F.mul(a, F.zero) == F.zero)
    && (forall a :: F.mul(F.zero, a) == F.zero)
    && (forall a :: F.mul(a, F.one) == a)
    && (forall a :: F.mul(F.one, a) == a)
    && (forall a, b, c {:trigger At(a, b, c)} :: LawsAt(F, a, b, c))
  }

  // The nonzero elements are the powers of the generator, all different below order - 1, and
  // fromByte tells the bytes below `order` apart.
  // Naming two exponents instantiates the laws of powers at them.
  ghost predicate Exponents(m: nat, n: nat) { true }

  ghost predicate PowersAt<T>(F: Field<T>, m: nat, n: nat)
    requires F.order > 1
  {
    && F.alphaPow(m) != F.zero
    && F.alphaPow(m + n) == F.mul(F.alphaPow(m), F.alphaPow(n))
    && (F.alphaPow(m) == F.alphaPow(n) <==> m % (F.order - 1) == n % (F.order - 1))
  }

  ghost predicate IsGenerated<T(!new)>(F: Field<T>) {
    && IsField(F)
    && (F.order == 16 || F.order == 256)
    && F.alphaPow(0) == F.one
    && (forall m: nat, n: nat {:trigger Exponents(m, n)} :: PowersAt(F, m, n))
    && (forall i: nat, j: nat :: i < j < F.order ==> F.fromByte(i) != F.fromByte(j))
  }

  lemma PowersOf<T(!new)>(F: Field<T>, m: nat, n: nat)
    requires IsGenerated(F)
    ensures PowersAt(F, m, n)
  {
    assert Exponents(m, n);
  }

  lemma Laws<T(!new)>(F: Field<T>, a: T, b: T, c: T)
    requires IsField(F)
    ensures LawsAt(F, a, b, c)
  {
    assert At(a, b, c);
  }

  // (a + b) + (c + d) == (a + c) + (b + d)
  lemma AddShuffle<T(!new)>(F: Field<T>, a: T, b: T, c: T, d: T)
    requires IsField(F)
    ensures F.add(F.add(a, b), F.add(c, d)) == F.add(F.add(a, c), F.add(b, d))
  {
    Laws(F, a, b, F.add(c, d));
    Laws(F, b, c, d);
    Laws(F, c, b, d);
    Laws(F, a, c, F.add(b, d));
  }

  // Both distributive laws.
  lemma Distribute<T(!new)>(F: Field<T>, a: T, b: T, c: T)
    requires IsField(F)
    ensures F.mul(a, F.add(b, c)) == F.add(F.mul(a, b), F.mul(a, c))
    ensures F.mul(F.add(b, c), a) == F.add(F.mul(b, a), F.mul(c, a))
  {
    Laws(F, a, b, c);
    Laws(F, a, F.add(b, c), a);
    Laws(F, a, c, a);
  }

  // In characteristic 2 a sum vanishes exactly when its terms are equal.
  lemma SumZero<T(!new)>(F: Field<T>, a: T, b: T)
    requires IsField(F)
    ensures F.add(a, b) == F.zero <==> a == b
    ensures F.add(F.add(a, b), b) == a
    ensures F.add(b, F.add(b, a)) == a
  {
    Laws(F, a, b, b);
    Laws(F, b, b, a);
  }

  lemma NoZeroDivisors<T(!new)>(F: Field<T>, a: T, b: T)
    requires IsField(F)
    ensures F.mul(a, b) == F.zero <==> a == F.zero || b == F.zero
  {
    if a != F.zero && F.mul(a, b) == F.zero {
      Laws(F, a, F.inv(a), b);
      Laws(F, F.inv(a), a, b);
    }
  }

  lemma Inverse<T(!new)>(F: Field<T>, a: T)
    requires IsField(F) && a != F.zero
    ensures F.mul(a, F.inv(a)) == F.one && F.mul(F.inv(a), a) == F.one
    ensures F.inv(a) != F.zero
  {
    Laws(F, a, F.inv(a), a);
  }

  // a * b == a * c determines b when a is not zero.
  lemma Cancel<T(!new)>(F: Field<T>, a: T, b: T, c: T)
    requires IsField(F) && a != F.zero && F.mul(a, b) == F.mul(a, c)
    ensures b == c
  {
    Distribute(F, a, b, c);
    NoZeroDivisors(F, a, F.add(b, c));
    SumZero(F, b, c);
  }
}
