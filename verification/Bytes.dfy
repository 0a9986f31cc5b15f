// Bytes and nibbles as their bits, most significant first.

module Bytes {

  datatype Byte = Byte(b7: bool, b6: bool, b5: bool, b4: bool, b3: bool, b2: bool, b1: bool, b0: bool)

  datatype Nibble = Nibble(n3: bool, n2: bool, n1: bool, n0: bool)

  // ---------------------------------------------------------------- numbers

  function Append(n: nat, b: bool): nat {
    if b then 2 * n + 1 else 2 * n
  }

  function ToNat(a: Byte): nat {
    var n3 := Append(Append(Append(Append(0, a.b7), a.b6), a.b5), a.b4);
    Append(Append(Append(Append(n3, a.b3), a.b2), a.b1), a.b0)
  }

  // The byte n mod 256.
  function FromNat(n: nat): Byte {
    Byte(n / 2 / 2 / 2 / 2 / 2 / 2 / 2 % 2 == 1, n / 2 / 2 / 2 / 2 / 2 / 2 % 2 == 1,
         n / 2 / 2 / 2 / 2 / 2 % 2 == 1, n / 2 / 2 / 2 / 2 % 2 == 1,
         n / 2 / 2 / 2 % 2 == 1, n / 2 / 2 % 2 == 1, n / 2 % 2 == 1, n % 2 == 1)
  }

  lemma AppendInjective(m: nat, b: bool, n: nat, c: bool)
    requires Append(m, b) == Append(n, c)
    ensures m == n && b == c
  {
  }

  lemma ToNatInjective(a: Byte, b: Byte)
    requires ToNat(a) == ToNat(b)
    ensures a == b
  {
    var a7 := Append(0, a.b7);
    var a6 := Append(a7, a.b6);
    var a5 := Append(a6, a.b5);
    var a4 := Append(a5, a.b4);
    var a3 := Append(a4, a.b3);
    var a2 := Append(a3, a.b2);
    var a1 := Append(a2, a.b1);
    var b7 := Append(0, b.b7);
    var b6 := Append(b7, b.b6);
    var b5 := Append(b6, b.b5);
    var b4 := Append(b5, b.b4);
    var b3 := Append(b4, b.b3);
    var b2 := Append(b3, b.b2);
    var b1 := Append(b2, b.b1);
    AppendInjective(a1, a.b0, b1, b.b0);
    AppendInjective(a2, a.b1, b2, b.b1);
    AppendInjective(a3, a.b2, b3, b.b2);
    AppendInjective(a4, a.b3, b4, b.b3);
    AppendInjective(a5, a.b4, b5, b.b4);
    AppendInjective(a6, a.b5, b6, b.b5);
    AppendInjective(a7, a.b6, b7, b.b6);
    AppendInjective(0, a.b7, 0, b.b7);
  }

  lemma AppendHalf(n: nat)
    ensures Append(n / 2, n % 2 == 1) == n
  {
  }

  lemma ToFromNat(n: nat)
    requires n < 256
    ensures ToNat(FromNat(n)) == n
  {
    var n1 := n / 2;
    var n2 := n1 / 2;
    var n3 := n2 / 2;
    var n4 := n3 / 2;
    var n5 := n4 / 2;
    var n6 := n5 / 2;
    var n7 := n6 / 2;
    assert n7 / 2 == 0;
    AppendHalf(n7);
    AppendHalf(n6);
    AppendHalf(n5);
    AppendHalf(n4);
    AppendHalf(n3);
    AppendHalf(n2);
    AppendHalf(n1);
    AppendHalf(n);
  }

  lemma FourBelow(n: nat, b3: bool, b2: bool, b1: bool, b0: bool, bound: nat)
    requires n < bound
    ensures var m := Append(Append(Append(Append(n, b3), b2), b1), b0);
            m < 16 * bound && (m == 0 <==> n == 0 && !b3 && !b2 && !b1 && !b0)
  {
  }

  lemma ToNatBelow(a: Byte)
    ensures ToNat(a) < 256
    ensures ToNat(a) == 0 <==> a == ZERO
  {
    FourBelow(0, a.b7, a.b6, a.b5, a.b4, 1);
    FourBelow(Append(Append(Append(Append(0, a.b7), a.b6), a.b5), a.b4), a.b3, a.b2, a.b1, a.b0, 16);
  }

  // The byte n mod 256, known by its number only: a caller never sees its bits computed.
  function Octet(n: nat): (b: Byte)
    ensures ToNat(b) == n % 256
  {
    OctetExists(n % 256);
    var b :| ToNat(b) == n % 256;
    b
  }

  lemma OctetExists(n: nat)
    requires n < 256
    ensures exists b :: ToNat(b) == n
    ensures forall b, c :: ToNat(b) == n && ToNat(c) == n ==> b == c
  {
    ToFromNat(n);
    forall b, c | ToNat(b) == n && ToNat(c) == n ensures b == c {
      ToNatInjective(b, c);
    }
  }

  // ---------------------------------------------------------------- bits

  function Differ(p: bool, q: bool): bool {
    p != q
  }

  function Xor(a: Byte, b: Byte): Byte {
    Byte(Differ(a.b7, b.b7), Differ(a.b6, b.b6), Differ(a.b5, b.b5), Differ(a.b4, b.b4),
         Differ(a.b3, b.b3), Differ(a.b2, b.b2), Differ(a.b1, b.b1), Differ(a.b0, b.b0))
  }

  lemma XorCommutative(a: Byte, b: Byte)
    ensures Xor(a, b) == Xor(b, a)
  {
  }

  lemma XorAssociative(a: Byte, b: Byte, c: Byte)
    ensures Xor(Xor(a, b), c) == Xor(a, Xor(b, c))
  {
  }

  function BitAt(a: Byte, i: nat): bool {
    if i == 0 then a.b0 else if i == 1 then a.b1 else if i == 2 then a.b2 else if i == 3 then a.b3
    else if i == 4 then a.b4 else if i == 5 then a.b5 else if i == 6 then a.b6 else a.b7
  }

  lemma SameBits(a: Byte, b: Byte)
    requires forall i: nat :: i < 8 ==> BitAt(a, i) == BitAt(b, i)
    ensures a == b
  {
    assert BitAt(a, 0) == BitAt(b, 0) && BitAt(a, 1) == BitAt(b, 1) && BitAt(a, 2) == BitAt(b, 2);
    assert BitAt(a, 3) == BitAt(b, 3) && BitAt(a, 4) == BitAt(b, 4) && BitAt(a, 5) == BitAt(b, 5);
    assert BitAt(a, 6) == BitAt(b, 6) && BitAt(a, 7) == BitAt(b, 7);
  }

  lemma XorAt(a: Byte, b: Byte, i: nat)
    ensures BitAt(Xor(a, b), i) == Differ(BitAt(a, i), BitAt(b, i))
  {
  }

  // One place to the left, dropping the top bit.
  function Shl(a: Byte): Byte {
    Byte(a.b6, a.b5, a.b4, a.b3, a.b2, a.b1, a.b0, false)
  }

  const ZERO := Byte(false, false, false, false, false, false, false, false)
  const ONE := Byte(false, false, false, false, false, false, false, true)

  // ---------------------------------------------------------------- nibbles

  function NibbleXor(a: Nibble, b: Nibble): Nibble {
    Nibble(Differ(a.n3, b.n3), Differ(a.n2, b.n2), Differ(a.n1, b.n1), Differ(a.n0, b.n0))
  }

  lemma NibbleXorCommutative(a: Nibble, b: Nibble)
    ensures NibbleXor(a, b) == NibbleXor(b, a)
  {
  }

  lemma NibbleXorAssociative(a: Nibble, b: Nibble, c: Nibble)
    ensures NibbleXor(NibbleXor(a, b), c) == NibbleXor(a, NibbleXor(b, c))
  {
  }

  function High(a: Byte): Nibble {
    Nibble(a.b7, a.b6, a.b5, a.b4)
  }

  function Low(a: Byte): Nibble {
    Nibble(a.b3, a.b2, a.b1, a.b0)
  }

  function Pack(hi: Nibble, lo: Nibble): Byte {
    Byte(hi.n3, hi.n2, hi.n1, hi.n0, lo.n3, lo.n2, lo.n1, lo.n0)
  }

  const NIBBLE_ZERO := Nibble(false, false, false, false)
  const NIBBLE_ONE := Nibble(false, false, false, true)

  // The nibble n mod 16.
  function NibbleFromNat(n: nat): Nibble {
    Low(FromNat(n))
  }

  function NibbleNat(n: Nibble): nat {
    Append(Append(Append(Append(0, n.n3), n.n2), n.n1), n.n0)
  }

  lemma NibbleExists(x: nat)
    requires x < 16
    ensures exists n :: NibbleNat(n) == x
  {
    assert NibbleNat(Nibble(x / 8 == 1, x / 4 % 2 == 1, x / 2 % 2 == 1, x % 2 == 1)) == x;
  }

  lemma NibbleUnique(m: Nibble, n: Nibble)
    requires NibbleNat(m) == NibbleNat(n)
    ensures m == n
  {
  }

  // The nibble with this number.
  function NibbleOf(x: nat): (n: Nibble)
    requires x < 16
    ensures NibbleNat(n) == x
  {
    NibbleExists(x);
    var n :| NibbleNat(n) == x;
    n
  }

  lemma NibbleNatBelow(n: Nibble)
    ensures NibbleNat(n) < 16 && NibbleOf(NibbleNat(n)) == n
  {
    NibbleUnique(NibbleOf(NibbleNat(n)), n);
  }
}
