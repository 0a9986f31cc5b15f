// GF(2^8): bytes, with x^8 + x^4 + x^3 + x^2 + 1 as modulus and 2 as generator.

module Gf8 {
  import Counting
  import opened Bytes
  import opened Fields
  import opened LogTables

  // ---------------------------------------------------------------- powers of the generator

  // Multiplication by the generator.
  function XTime(a: Byte): Byte {
    Byte(a.b6, a.b5, a.b4, a.b3 != a.b7, a.b2 != a.b7, a.b1 != a.b7, a.b0, a.b7)
  }

  // Shift, and reduce by the modulus when a bit falls out at the top.
  function ShiftReduce(a: Byte): Byte {
    if a.b7 then Xor(Shl(a), FromNat(0x1D)) else Shl(a)
  }

  lemma XTimeShifts(a: Byte)
    ensures XTime(a) == ShiftReduce(a)
  {
    assert FromNat(0x1D) == Byte(false, false, false, true, true, true, false, true);
  }

  // Multiplication by the n-th power of the generator.
  function XPow(a: Byte, n: nat): Byte {
    if n == 0 then a else XTime(XPow(a, n - 1))
  }

  function Alpha(n: nat): Byte {
    XPow(ONE, n)
  }

  lemma {:induction false} XPowLinear(a: Byte, b: Byte, n: nat)
    ensures XPow(Xor(a, b), n) == Xor(XPow(a, n), XPow(b, n))
  {
    if n > 0 {
      XPowLinear(a, b, n - 1);
      XTimeLinear(XPow(a, n - 1), XPow(b, n - 1));
    }
  }

  lemma XTimeLinear(a: Byte, b: Byte)
    ensures XTime(Xor(a, b)) == Xor(XTime(a), XTime(b))
  {
  }

  lemma {:induction false} XPowAdd(a: Byte, m: nat, n: nat)
    ensures XPow(XPow(a, m), n) == XPow(a, m + n)
  {
    if n > 0 {
      XPowAdd(a, m, n - 1);
    }
  }

  lemma {:induction false} XPowZero(n: nat)
    ensures XPow(ZERO, n) == ZERO
  {
    if n > 0 {
      XPowZero(n - 1);
    }
  }

  // ---------------------------------------------------------------- the order of the generator

  // The square of a, which is linear in a.
  function Square(a: Byte): Byte {
    Byte(a.b6, (a.b3 != a.b5) != a.b6, a.b5, ((a.b2 != a.b4) != a.b5) != a.b7,
         a.b4 != a.b6, ((a.b1 != a.b4) != a.b5) != a.b6, a.b7, ((a.b0 != a.b4) != a.b6) != a.b7)
  }

  lemma SquareXTime(a: Byte)
    ensures Square(XTime(a)) == XTime(XTime(Square(a)))
  {
  }

  lemma {:induction false} Doubled(n: nat)
    ensures Alpha(2 * n) == Square(Alpha(n))
  {
    if n > 0 {
      Doubled(n - 1);
      SquareXTime(Alpha(n - 1));
      assert Alpha(2 * n) == XTime(Alpha(2 * n - 1));
    }
  }

  lemma XTimeInjective(a: Byte, b: Byte)
    requires XTime(a) == XTime(b)
    ensures a == b
  {
  }

  lemma DoubledPlusOne(n: nat)
    ensures Alpha(2 * n + 1) == XTime(Square(Alpha(n)))
  {
    Doubled(n);
  }

  // 1, 3, 7, 15.  The exponents are variables so that they are not computed by unrolling.
  lemma Spot15(n: nat)
    requires n == 15
    ensures Alpha(n) != ONE
  {
    var n7 := n / 2;
    var n3 := n7 / 2;
    var n1 := n3 / 2;
    assert Alpha(n1) == FromNat(2);
    DoubledPlusOne(n1);
    assert Alpha(n3) == FromNat(8);
    DoubledPlusOne(n3);
    assert Alpha(n7) == FromNat(128);
    DoubledPlusOne(n7);
  }

  // 1, 3, 6, 12, 25, 51.
  lemma Spot6(n: nat)
    requires n == 6
    ensures Alpha(n) == FromNat(64)
  {
    var n3 := n / 2;
    var n1 := n3 / 2;
    assert Alpha(n1) == FromNat(2);
    DoubledPlusOne(n1);
    assert Alpha(n3) == FromNat(8);
    Doubled(n3);
  }

  lemma Spot12(n: nat)
    requires n == 12
    ensures Alpha(n) == FromNat(205)
  {
    Spot6(n / 2);
    Doubled(n / 2);
  }

  lemma Spot51(n: nat)
    requires n == 51
    ensures Alpha(n) != ONE
  {
    var n25 := n / 2;
    var n12 := n25 / 2;
    Spot12(n12);
    DoubledPlusOne(n12);
    assert Alpha(n25) == FromNat(3);
    DoubledPlusOne(n25);
  }

  // 1, 2, 5, 10, 21, 42, 85.
  lemma Spot21(n: nat)
    requires n == 21
    ensures Alpha(n) == FromNat(117)
  {
    var n10 := n / 2;
    var n5 := n10 / 2;
    var n2 := n5 / 2;
    assert Alpha(n2) == FromNat(4);
    DoubledPlusOne(n2);
    assert Alpha(n5) == FromNat(32);
    Doubled(n5);
    assert Alpha(n10) == FromNat(116);
    DoubledPlusOne(n10);
  }

  lemma Spot42(n: nat)
    requires n == 42
    ensures Alpha(n) == FromNat(181)
  {
    var n21 := n / 2;
    Spot21(n21);
    Doubled(n21);
    assert 2 * n21 == n;
    SquareOf117();
  }

  lemma SquareOf117()
    ensures Square(FromNat(117)) == FromNat(181)
  {
  }

  lemma Spot85(n: nat)
    requires n == 85
    ensures Alpha(n) != ONE
  {
    Spot42(n / 2);
    DoubledPlusOne(n / 2);
  }

  // The 256th power is the generator again.
  lemma Spot255()
    ensures Alpha(255) == ONE
  {
    Doubled(1);
    Doubled(2);
    Doubled(4);
    Doubled(8);
    Doubled(16);
    Doubled(32);
    Doubled(64);
    Doubled(128);
    assert Alpha(256) == XTime(Alpha(255)) && Alpha(1) == XTime(ONE);
    XTimeInjective(Alpha(255), ONE);
  }

  lemma {:induction false} PeriodRemainder(d: nat, n: nat) returns (q: nat, r: nat)
    requires d > 0 && Alpha(d) == ONE && Alpha(n) == ONE
    ensures n == q * d + r && r < d && Alpha(r) == ONE
    decreases n
  {
    if n < d {
      q, r := 0, n;
    } else {
      XPowAdd(ONE, d, n - d);
      q, r := PeriodRemainder(d, n - d);
      q := q + 1;
    }
  }

  lemma {:induction false} PeriodTimes(d: nat, k: nat)
    requires Alpha(d) == ONE
    ensures Alpha(k * d) == ONE
  {
    if k > 0 {
      PeriodTimes(d, k - 1);
      XPowAdd(ONE, (k - 1) * d, d);
      assert (k - 1) * d + d == k * d;
    }
  }

  // A proper divisor of 255 divides 85, 51 or 15.
  lemma Divisors(q: nat, d: nat) returns (k: nat)
    requires 0 < d < 255 && q * d == 255
    ensures k * d == 85 || k * d == 51 || k * d == 15
  {
    if d <= 15 {
      assert d == 1 || d == 2 || d == 3 || d == 4 || d == 5 || d == 6 || d == 7 || d == 8
          || d == 9 || d == 10 || d == 11 || d == 12 || d == 13 || d == 14 || d == 15;
      k := if d == 1 then 15 else if d == 3 then 5 else if d == 5 then 3 else 1;
    } else {
      assert 2 <= q <= 15;
      assert q == 2 || q == 3 || q == 4 || q == 5 || q == 6 || q == 7 || q == 8
          || q == 9 || q == 10 || q == 11 || q == 12 || q == 13 || q == 14 || q == 15;
      k := if d == 17 then 3 else 1;
    }
  }

  // The least period divides 255; one below 255 would divide 85, 51 or 15, which are no periods.
  lemma {:induction false} OrderIs255(d: nat)
    requires 0 < d < 255
    ensures Alpha(d) != ONE
    decreases d
  {
    if Alpha(d) == ONE {
      Spot255();
      var q, r := PeriodRemainder(d, 255);
      if r > 0 {
        OrderIs255(r);
      } else {
        var k := Divisors(q, d);
        PeriodTimes(d, k);
        NoShortPeriod(k * d);
      }
    }
  }

  lemma NoShortPeriod(n: nat)
    requires n == 15 || n == 51 || n == 85
    ensures Alpha(n) != ONE
  {
    if n == 15 {
      Spot15(n);
    } else if n == 51 {
      Spot51(n);
    } else {
      Spot85(n);
    }
  }

  lemma AlphaInjective(i: nat, j: nat)
    requires i < j < 255
    ensures Alpha(i) != Alpha(j)
  {
    XPowAdd(ONE, j, 255 - j);
    XPowAdd(ONE, i, 255 - j);
    Spot255();
    OrderIs255(255 - (j - i));
  }

  lemma {:induction false} AlphaMod(n: nat)
    ensures Alpha(n) == Alpha(n % 255)
    decreases n
  {
    if n >= 255 {
      Spot255();
      XPowAdd(ONE, 255, n - 255);
      AlphaMod(n - 255);
      assert (n - 255) % 255 == n % 255;
    }
  }

  lemma AlphaNonzero(n: nat)
    ensures Alpha(n) != ZERO
  {
    AlphaMod(n);
    var m := n % 255;
    Spot255();
    XPowAdd(ONE, m, 255 - m);
    XPowZero(255 - m);
  }

  // ---------------------------------------------------------------- logarithms

  lemma {:induction false} CardBelow(s: set<nat>, n: nat)
    requires forall k :: k in s ==> k < n
    ensures |s| <= n
  {
    if n > 0 {
      var t := s - {n - 1};
      CardBelow(t, n - 1);
      assert s <= t + {n - 1};
      Counting.SubsetCard(s, t + {n - 1});
    } else {
      assert s == {};
    }
  }

  ghost function PowerSet(n: nat): set<nat> {
    if n == 0 then {} else PowerSet(n - 1) + {ToNat(Alpha(n - 1))}
  }

  lemma {:induction false} PowersWitness(n: nat, k: nat)
    requires k in PowerSet(n)
    ensures exists i: nat :: i < n && ToNat(Alpha(i)) == k
  {
    if k != ToNat(Alpha(n - 1)) {
      PowersWitness(n - 1, k);
    }
  }

  lemma {:induction false} PowersCount(n: nat)
    requires n <= 255
    ensures |PowerSet(n)| == n
  {
    if n > 0 {
      PowersCount(n - 1);
      var k := ToNat(Alpha(n - 1));
      if k in PowerSet(n - 1) {
        PowersWitness(n - 1, k);
        var i: nat :| i < n - 1 && ToNat(Alpha(i)) == k;
        ToNatInjective(Alpha(i), Alpha(n - 1));
        AlphaInjective(i, n - 1);
      }
    }
  }

  lemma PowersRange(n: nat, k: nat)
    requires k in PowerSet(n)
    ensures 0 < k < 256
  {
    PowersWitness(n, k);
    var i: nat :| i < n && ToNat(Alpha(i)) == k;
    AlphaNonzero(i);
    ToNatBelow(Alpha(i));
  }

  // A set of 255 numbers from 1 to 255 has them all.
  lemma Fills(s: set<nat>, k: nat)
    requires |s| == 255 && 0 < k < 256
    requires forall j :: j in s ==> 0 < j < 256
    ensures k in s
  {
    var t := s + {0};
    assert |t| == 256;
    if k !in s {
      assert |t + {k}| == 257;
      CardBelow(t + {k}, 256);
    }
  }

  // There are 255 powers and 255 nonzero bytes, so every nonzero byte is a power.
  lemma PowerWithin(a: Byte, n: nat)
    requires a != ZERO && n == 255
    ensures exists i: nat :: i < n && Alpha(i) == a
  {
    var k := ToNat(a);
    ToNatBelow(a);
    PowersCount(n);
    forall j | j in PowerSet(n) ensures 0 < j < 256 {
      PowersRange(n, j);
    }
    Fills(PowerSet(n), k);
    PowersWitness(n, k);
    var i: nat :| i < n && ToNat(Alpha(i)) == k;
    ToNatInjective(Alpha(i), a);
  }

  lemma LogExists(a: Byte)
    requires a != ZERO
    ensures exists i: nat :: i < 255 && Alpha(i) == a
  {
    PowerWithin(a, 255);
  }

  // The least exponent at or above `from`.
  function LogFrom(a: Byte, from: nat): (i: nat)
    requires exists j: nat :: from <= j < 255 && Alpha(j) == a
    ensures i < 255 && Alpha(i) == a
    decreases 255 - from
  {
    if Alpha(from) == a then from else LogFrom(a, from + 1)
  }

  function Log(a: Byte): (i: nat)
    requires a != ZERO
    ensures i < 255 && Alpha(i) == a
  {
    LogExists(a);
    LogFrom(a, 0)
  }

  lemma LogAlpha(n: nat)
    ensures Alpha(n) != ZERO && Log(Alpha(n)) == n % 255
  {
    AlphaNonzero(n);
    AlphaMod(n);
    var i, j := Log(Alpha(n)), n % 255;
    if i < j {
      AlphaInjective(i, j);
    } else if j < i {
      AlphaInjective(j, i);
    }
  }

  // ---------------------------------------------------------------- the field

  // The log table; zero has the sentinel.
  function LogEntry(a: Byte): nat {
    if a == ZERO then 0xFF else Log(a)
  }

  function Tables8(): Powers<Byte> {
    Powers(255, ZERO, (a, b) => Xor(a, b), (i: nat) => Alpha(i), a => LogEntry(a), (a, k: nat) => XPow(a, k))
  }

  function Field8(): Field<Byte> {
    MakeField(Tables8(), (n: nat) => FromNat(n))
  }

  function Mul8(a: Byte, b: Byte): Byte {
    Mul(Tables8(), a, b)
  }

  lemma AddLaws()
    ensures AddCommutes(Tables8()) && AddAssociates(Tables8()) && AddCancels(Tables8())
  {
    AddLaws1();
    AddLaws2();
  }

  lemma AddLaws1()
    ensures AddCommutes(Tables8()) && AddCancels(Tables8())
  {
    forall a, b ensures Xor(a, b) == Xor(b, a) {
      XorCommutative(a, b);
    }
  }

  lemma AddLaws2()
    ensures AddAssociates(Tables8())
  {
    forall a, b, c ensures Xor(Xor(a, b), c) == Xor(a, Xor(b, c)) {
      XorAssociative(a, b, c);
    }
  }

  lemma AlphaLaws(m: nat, k: nat)
    ensures PowerLaws(Tables8(), m, k)
  {
    LogAlpha(m);
    AlphaMod(m);
    XPowAdd(ONE, m, k);
    XPowZero(k);
  }

  lemma Tables8Cyclic()
    ensures Cyclic(Tables8())
  {
    var G := Tables8();
    AddLaws();
    forall m: nat, k: nat ensures PowerLaws(G, m, k) {
      AlphaLaws(m, k);
    }
    forall a, b, k: nat ensures G.shift(G.add(a, b), k) == G.add(G.shift(a, k), G.shift(b, k)) {
      XPowLinear(a, b, k);
    }
  }

  // Bytes with the table-driven operations are a field, and 2 generates it.
  lemma Field8IsGenerated()
    ensures IsGenerated(Field8())
  {
    Tables8Cyclic();
    forall i: nat, j: nat | i < j <= 255 ensures FromNat(i) != FromNat(j) {
      ToFromNat(i);
      ToFromNat(j);
    }
    MakesGenerated(Tables8(), (n: nat) => FromNat(n));
  }

  // ---------------------------------------------------------------- polynomials

  function Times(bit: bool, a: Byte): Byte {
    if bit then a else ZERO
  }

  // The product of a and the low bits of b, n of them: shift and add.
  function PolySum(a: Byte, b: Byte, n: nat): Byte
    requires n <= 8
  {
    if n == 0 then ZERO else Xor(PolySum(a, b, n - 1), Times(BitAt(b, n - 1), XPow(a, n - 1)))
  }

  // The product of a and b as polynomials over GF(2), reduced by the modulus.
  function PolyMul(a: Byte, b: Byte): Byte {
    PolySum(a, b, 8)
  }

  lemma MulAlpha8(a: Byte, n: nat)
    ensures Mul8(a, Alpha(n)) == XPow(a, n)
  {
    Tables8Cyclic();
    MulPower(Tables8(), a, n);
  }

  lemma MulTimes(a: Byte, bit: bool, n: nat)
    ensures Mul8(a, Times(bit, Alpha(n))) == Times(bit, XPow(a, n))
  {
    if bit {
      MulAlpha8(a, n);
    }
  }

  lemma {:induction false} MulPolySum(a: Byte, b: Byte, n: nat)
    requires n <= 8
    ensures Mul8(a, PolySum(ONE, b, n)) == PolySum(a, b, n)
  {
    if n > 0 {
      MulPolySum(a, b, n - 1);
      MulTimes(a, BitAt(b, n - 1), n - 1);
      Tables8Cyclic();
      MulDistributes(Tables8(), a, PolySum(ONE, b, n - 1), Times(BitAt(b, n - 1), Alpha(n - 1)));
    }
  }

  function SingleBit(n: nat): Byte {
    Byte(n == 7, n == 6, n == 5, n == 4, n == 3, n == 2, n == 1, n == 0)
  }

  // The powers below the eighth are the single bits.
  lemma {:induction false} SmallPowers(n: nat)
    requires n < 8
    ensures Alpha(n) == SingleBit(n)
  {
    if n > 0 {
      SmallPowers(n - 1);
      assert XTime(SingleBit(n - 1)) == SingleBit(n);
    }
  }

  lemma TermAt(bit: bool, n: nat, i: nat)
    requires n < 8 && i < 8
    ensures BitAt(Times(bit, Alpha(n)), i) == (bit && i == n)
  {
    SmallPowers(n);
  }

  lemma {:induction false} PolySumOne(b: Byte, n: nat, i: nat)
    requires n <= 8 && i < 8
    ensures BitAt(PolySum(ONE, b, n), i) == (i < n && BitAt(b, i))
  {
    if n > 0 {
      PolySumOne(b, n - 1, i);
      TermAt(BitAt(b, n - 1), n - 1, i);
      XorAt(PolySum(ONE, b, n - 1), Times(BitAt(b, n - 1), Alpha(n - 1)), i);
    }
  }

  // The logarithm tables compute polynomial multiplication modulo 0x11D.
  lemma MulIsPolynomial(a: Byte, b: Byte)
    ensures Mul8(a, b) == PolyMul(a, b)
  {
    forall i: nat | i < 8 ensures BitAt(PolySum(ONE, b, 8), i) == BitAt(b, i) {
      PolySumOne(b, 8, i);
    }
    SameBits(PolySum(ONE, b, 8), b);
    MulPolySum(a, b, 8);
  }

  // ---------------------------------------------------------------- building the tables

  // 512 entries, the powers twice: a sum of two logarithms needs no reduction.
  method BuildExp() returns (exp: array<Byte>)
    ensures fresh(exp) && exp.Length == 512
    ensures forall i: nat :: i <= 510 ==> exp[i] == Alpha(i)
  {
    exp := new Byte[512](_ => ZERO);
    var x := ONE;
    for i := 0 to 255
      invariant x == Alpha(i)
      invariant forall j: nat :: j < i ==> exp[j] == Alpha(j)
    {
      exp[i] := x;
      XTimeShifts(x);
      x := ShiftReduce(x);
    }
    Mirror(exp);
  }

  method Mirror(exp: array<Byte>)
    requires exp.Length == 512 && forall i: nat :: i < 255 ==> exp[i] == Alpha(i)
    modifies exp
    ensures forall i: nat :: i <= 510 ==> exp[i] == Alpha(i)
  {
    for j := 0 to 255
      invariant forall k: nat :: k < 255 + j ==> exp[k] == Alpha(k)
    {
      exp[255 + j] := exp[j];
      AlphaTwice(255 + j, j);
    }
    exp[510] := exp[0];
    ghost var last := exp.Length - 2;
    AlphaTwice(last, last - 255);
    AlphaTwice(last - 255, 0);
  }

  lemma AlphaTwice(i: nat, j: nat)
    requires i == 255 + j
    ensures Alpha(i) == Alpha(j)
  {
    AlphaMod(i);
    AlphaMod(j);
  }

  function Index(j: nat): nat {
    ToNat(Alpha(j))
  }

  lemma IndexFresh(i: nat)
    requires i < 255
    ensures 0 < Index(i) < 256
    ensures forall j: nat :: j < i ==> Index(j) != Index(i)
  {
    AlphaNonzero(i);
    ToNatBelow(Alpha(i));
    forall j: nat | j < i ensures Index(j) != Index(i) {
      AlphaInjective(j, i);
      if Index(j) == Index(i) {
        ToNatInjective(Alpha(j), Alpha(i));
      }
    }
  }

  // Every power gets its exponent; the entry of zero keeps the sentinel.
  method BuildLog(exp: array<Byte>) returns (log: array<nat>)
    requires exp.Length == 512 && forall i: nat :: i < 255 ==> exp[i] == Alpha(i)
    ensures fresh(log) && log.Length == 256 && log[0] == 0xFF
    ensures forall i: nat :: i < 255 ==> 0 < Index(i) < 256 && log[Index(i)] == i
  {
    log := new nat[256](_ => 0xFF);
    for i := 0 to 255
      invariant log[0] == 0xFF
      invariant forall j: nat :: j < i ==> 0 < Index(j) < 256 && log[Index(j)] == j
    {
      IndexFresh(i);
      assert ToNat(exp[i]) == Index(i);
      log[ToNat(exp[i])] := i;
    }
  }
}
