// GF(2^4): nibbles, with x^4 + x + 1 as modulus and 2 as generator.

module Gf4 {
  import opened Bytes
  import opened Fields
  import opened LogTables

  function XTime(a: Nibble): Nibble {
    Nibble(a.n2, a.n1, Differ(a.n0, a.n3), a.n3)
  }

  function XPow(a: Nibble, n: nat): Nibble {
    if n == 0 then a else XTime(XPow(a, n - 1))
  }

  function Alpha(n: nat): Nibble {
    XPow(NIBBLE_ONE, n)
  }

  lemma XTimeLinear(a: Nibble, b: Nibble)
    ensures XTime(NibbleXor(a, b)) == NibbleXor(XTime(a), XTime(b))
  {
  }

  lemma {:induction false} XPowLinear(a: Nibble, b: Nibble, n: nat)
    ensures XPow(NibbleXor(a, b), n) == NibbleXor(XPow(a, n), XPow(b, n))
  {
    if n > 0 {
      XPowLinear(a, b, n - 1);
      XTimeLinear(XPow(a, n - 1), XPow(b, n - 1));
    }
  }

  lemma {:induction false} XPowAdd(a: Nibble, m: nat, n: nat)
    ensures XPow(XPow(a, m), n) == XPow(a, m + n)
  {
    if n > 0 {
      XPowAdd(a, m, n - 1);
    }
  }

  lemma {:induction false} XPowZero(n: nat)
    ensures XPow(NIBBLE_ZERO, n) == NIBBLE_ZERO
  {
    if n > 0 {
      XPowZero(n - 1);
    }
  }

  // The exponent at which the walk over the powers meets a.
  function LogEntry(a: Nibble): nat {
    if a.n3 then
      if a.n2 then (if a.n1 then (if a.n0 then 12 else 11) else (if a.n0 then 13 else 6))
      else (if a.n1 then (if a.n0 then 7 else 9) else (if a.n0 then 14 else 3))
    else
      if a.n2 then (if a.n1 then (if a.n0 then 10 else 5) else (if a.n0 then 8 else 2))
      else (if a.n1 then (if a.n0 then 4 else 1) else (if a.n0 then 0 else 0xFF))
  }

  // Multiplying by the generator moves on by one, from 14 back to 0.
  lemma LogStep(a: Nibble)
    requires a != NIBBLE_ZERO
    ensures XTime(a) != NIBBLE_ZERO
    ensures LogEntry(a) < 15 && LogEntry(XTime(a)) == if LogEntry(a) == 14 then 0 else LogEntry(a) + 1
  {
  }

  lemma {:induction false} LogAlpha(n: nat)
    ensures Alpha(n) != NIBBLE_ZERO && LogEntry(Alpha(n)) == n % 15
  {
    if n > 0 {
      LogAlpha(n - 1);
      LogStep(Alpha(n - 1));
    }
  }

  lemma LogInjective(a: Nibble, b: Nibble)
    requires LogEntry(a) == LogEntry(b)
    ensures a == b
  {
  }

  lemma AlphaMod(n: nat)
    ensures Alpha(n) == Alpha(n % 15)
  {
    LogAlpha(n);
    LogAlpha(n % 15);
    LogInjective(Alpha(n), Alpha(n % 15));
  }

  lemma AlphaLog(a: Nibble)
    requires a != NIBBLE_ZERO
    ensures LogEntry(a) < 15 && Alpha(LogEntry(a)) == a
  {
    LogStep(a);
    LogAlpha(LogEntry(a));
    LogInjective(a, Alpha(LogEntry(a)));
  }

  function Tables4(): Powers<Nibble> {
    Powers(15, NIBBLE_ZERO, (a, b) => NibbleXor(a, b),
           (i: nat) => Alpha(i), a => LogEntry(a), (a, k: nat) => XPow(a, k))
  }

  function Field4(): Field<Nibble> {
    MakeField(Tables4(), (n: nat) => NibbleFromNat(n))
  }

  function Mul4(a: Nibble, b: Nibble): Nibble {
    Mul(Tables4(), a, b)
  }

  lemma AddLaws()
    ensures AddCommutes(Tables4()) && AddAssociates(Tables4()) && AddCancels(Tables4())
  {
    forall a, b ensures NibbleXor(a, b) == NibbleXor(b, a) {
      NibbleXorCommutative(a, b);
    }
    forall a, b, c ensures NibbleXor(NibbleXor(a, b), c) == NibbleXor(a, NibbleXor(b, c)) {
      NibbleXorAssociative(a, b, c);
    }
  }

  lemma AlphaLaws(m: nat, k: nat)
    ensures PowerLaws(Tables4(), m, k)
  {
    LogAlpha(m);
    AlphaMod(m);
    XPowAdd(NIBBLE_ONE, m, k);
    XPowZero(k);
  }

  lemma Tables4Cyclic()
    ensures Cyclic(Tables4())
  {
    var G := Tables4();
    AddLaws();
    forall m: nat, k: nat ensures PowerLaws(G, m, k) {
      AlphaLaws(m, k);
    }
    forall a, b, k: nat ensures G.shift(G.add(a, b), k) == G.add(G.shift(a, k), G.shift(b, k)) {
      XPowLinear(a, b, k);
    }
    forall a: Nibble | a != G.zero ensures G.log(a) < 15 && G.alpha(G.log(a)) == a {
      AlphaLog(a);
    }
  }

  lemma LowInjective(a: Byte, b: Byte)
    requires ToNat(a) < 16 && ToNat(b) < 16 && Low(a) == Low(b)
    ensures a == b
  {
    HighZero(a);
    HighZero(b);
  }

  lemma HighZero(a: Byte)
    requires ToNat(a) < 16
    ensures !a.b7 && !a.b6 && !a.b5 && !a.b4
  {
    var n3 := Bytes.Append(Bytes.Append(Bytes.Append(Bytes.Append(0, a.b7), a.b6), a.b5), a.b4);
    assert 16 * n3 <= ToNat(a);
  }

  // Nibbles with the table-driven operations are a field, and 2 generates it.
  lemma Field4IsGenerated()
    ensures IsGenerated(Field4())
  {
    Tables4Cyclic();
    forall i: nat, j: nat | i < j <= 15 ensures NibbleFromNat(i) != NibbleFromNat(j) {
      ToFromNat(i);
      ToFromNat(j);
      if NibbleFromNat(i) == NibbleFromNat(j) {
        LowInjective(FromNat(i), FromNat(j));
      }
    }
    MakesGenerated(Tables4(), (n: nat) => NibbleFromNat(n));
  }

  // ---------------------------------------------------------------- polynomials

  function Times(bit: bool, a: Nibble): Nibble {
    if bit then a else NIBBLE_ZERO
  }

  // The product as polynomials over GF(2), reduced by the modulus: shift and add.
  function PolyMul(a: Nibble, b: Nibble): Nibble {
    NibbleXor(Times(b.n0, a),
    NibbleXor(Times(b.n1, XPow(a, 1)),
    NibbleXor(Times(b.n2, XPow(a, 2)), Times(b.n3, XPow(a, 3)))))
  }

  lemma MulTimes(a: Nibble, bit: bool, n: nat)
    ensures Mul4(a, Times(bit, Alpha(n))) == Times(bit, XPow(a, n))
  {
    Tables4Cyclic();
    if bit {
      MulPower(Tables4(), a, n);
    }
  }

  lemma MulXor(a: Nibble, b: Nibble, c: Nibble)
    ensures Mul4(a, NibbleXor(b, c)) == NibbleXor(Mul4(a, b), Mul4(a, c))
  {
    Tables4Cyclic();
    MulDistributes(Tables4(), a, b, c);
  }

  // The logarithm tables compute polynomial multiplication modulo x^4 + x + 1.
  lemma MulIsPolynomial(a: Nibble, b: Nibble)
    ensures Mul4(a, b) == PolyMul(a, b)
  {
    var t0, t1, t2, t3 := Times(b.n0, Alpha(0)), Times(b.n1, Alpha(1)), Times(b.n2, Alpha(2)), Times(b.n3, Alpha(3));
    assert b == NibbleXor(t0, NibbleXor(t1, NibbleXor(t2, t3)));
    MulXor(a, t0, NibbleXor(t1, NibbleXor(t2, t3)));
    MulXor(a, t1, NibbleXor(t2, t3));
    MulXor(a, t2, t3);
    MulTimes(a, b.n0, 0);
    MulTimes(a, b.n1, 1);
    MulTimes(a, b.n2, 2);
    MulTimes(a, b.n3, 3);
  }

  // ---------------------------------------------------------------- building the tables

  // Shift, and reduce by the modulus when a bit falls out at the top.
  function ShiftReduce(a: Nibble): Nibble {
    var shifted := Nibble(a.n2, a.n1, a.n0, false);
    if a.n3 then NibbleXor(shifted, Nibble(false, false, true, true)) else shifted
  }

  lemma XTimeShifts(a: Nibble)
    ensures XTime(a) == ShiftReduce(a)
  {
  }

  method BuildExp() returns (exp: array<Nibble>)
    ensures fresh(exp) && exp.Length == 16
    ensures forall i: nat :: i < 16 ==> exp[i] == Alpha(i)
  {
    exp := new Nibble[16](_ => NIBBLE_ZERO);
    var x := NIBBLE_ONE;
    for i := 0 to 15
      invariant x == Alpha(i)
      invariant forall j: nat :: j < i ==> exp[j] == Alpha(j)
    {
      exp[i] := x;
      XTimeShifts(x);
      x := ShiftReduce(x);
    }
    ghost var last := exp.Length - 1;
    AlphaMod(last);
    exp[15] := NIBBLE_ONE;
  }

  lemma PowerEntry(i: nat)
    requires i < 15
    ensures LogEntry(Alpha(i)) == i && NibbleNat(Alpha(i)) < 16 && Alpha(i) != NIBBLE_ZERO
  {
    LogAlpha(i);
    NibbleNatBelow(Alpha(i));
  }

  // Every power gets its exponent; the entry of zero keeps the sentinel.
  method BuildLog(exp: array<Nibble>) returns (log: array<nat>)
    requires exp.Length == 16 && forall i: nat :: i < 16 ==> exp[i] == Alpha(i)
    ensures fresh(log) && log.Length == 16
    ensures forall n: Nibble :: NibbleNat(n) < 16 && log[NibbleNat(n)] == LogEntry(n)
  {
    log := new nat[16](_ => 0xFF);
    for i := 0 to 15
      invariant log[0] == 0xFF
      invariant forall n: Nibble :: NibbleNat(n) < 16 && (LogEntry(n) < i ==> log[NibbleNat(n)] == LogEntry(n))
    {
      PowerEntry(i);
      forall n: Nibble ensures NibbleNat(n) < 16 && (NibbleNat(n) == NibbleNat(Alpha(i)) <==> n == Alpha(i)) {
        NibbleNatBelow(n);
        NibbleNatBelow(Alpha(i));
      }
      log[NibbleNat(exp[i])] := i;
    }
    forall n: Nibble ensures NibbleNat(n) < 16 && log[NibbleNat(n)] == LogEntry(n) {
      if n != NIBBLE_ZERO {
        AlphaLog(n);
      }
    }
  }
}
