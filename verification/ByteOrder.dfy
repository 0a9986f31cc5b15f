// The formats as numbers: which byte of a word is which digit, which bit of a byte means what.

module ByteOrders {
  import opened Bytes
  import opened Words
  import opened BitStreams
  import opened LogTables
  import F = Feedback
  import I = IdStorage
  import W = VectorWire

  // ---------------------------------------------------------------- bytes of a word

  lemma DivideTwice(n: nat, p: nat)
    requires p > 0
    ensures n / 256 / p == n / (256 * p)
  {
    var h := n / 256;
    var q, r := h / p, h % p;
    assert h == p * q + r;
    assert n == 256 * p * q + (256 * r + n % 256) by {
      assert 256 * (p * q) == 256 * p * q;
    }
    Quotient(n, q, 256 * r + n % 256, 256 * p);
  }

  lemma Quotient(m: nat, q: nat, r: nat, n: nat)
    requires m == n * q + r && r < n
    ensures m / n == q
  {
    var d := m / n - q;
    assert n * d == n * (m / n) - n * q;
    Multiple(n, d);
  }

  // Byte i of a word of k bytes is the digit of 256 to the k - 1 - i.
  lemma {:induction false} BeDigit(n: nat, k: nat, i: nat)
    requires i < k
    ensures ToNat(Be(n, k)[i]) == n / Pow256(k - 1 - i) % 256
  {
    if i < k - 1 {
      BeDigit(n / 256, k - 1, i);
      assert Be(n, k)[i] == Be(n / 256, k - 1)[i];
      DivideTwice(n, Pow256(k - 2 - i));
    } else {
      assert Pow256(0) == 1;
    }
  }

  // Reading is the inverse of writing, on every string of bytes.
  lemma {:induction false} WriteBack(b: seq<Byte>)
    ensures Be(ReadBe(b), |b|) == b && ReadBe(b) < Pow256(|b|)
  {
    if b != [] {
      var init, last := b[..|b| - 1], b[|b| - 1];
      WriteBack(init);
      ToNatBelow(last);
      assert ReadBe(b) / 256 == ReadBe(init) && ReadBe(b) % 256 == ToNat(last);
      ToNatInjective(Octet(ReadBe(b)), last);
      assert b == init + [last];
      assert ReadBe(init) + 1 <= Pow256(|init|);
    }
  }

  lemma ReadBeDigit(b: seq<Byte>, i: nat)
    requires i < |b|
    ensures ReadBe(b) / Pow256(|b| - 1 - i) % 256 == ToNat(b[i])
  {
    WriteBack(b);
    BeDigit(ReadBe(b), |b|, i);
  }

  // ---------------------------------------------------------------- bits of a byte

  function Four(n: nat, b3: bool, b2: bool, b1: bool, b0: bool): nat {
    Append(Append(Append(Append(n, b3), b2), b1), b0)
  }

  lemma FourMore(n: nat, b3: bool, b2: bool, b1: bool, b0: bool)
    ensures Four(n, b3, b2, b1, b0) == 16 * n + Four(0, b3, b2, b1, b0)
  {
  }

  lemma Sixteens(n: nat, h: nat, l: nat, x: nat, y: nat, t: nat)
    requires x == 16 * n + h && y == 16 * x + l && t == 16 * h + l
    ensures y == 256 * n + t
  {
  }

  lemma ByteInFours(b: Byte)
    ensures ToNat(b) == Four(Four(0, b.b7, b.b6, b.b5, b.b4), b.b3, b.b2, b.b1, b.b0)
  {
  }

  lemma EightMore(n: nat, b: Byte, h: nat, l: nat, x: nat, y: nat)
    requires h == Four(0, b.b7, b.b6, b.b5, b.b4) && l == Four(0, b.b3, b.b2, b.b1, b.b0)
    requires x == Four(n, b.b7, b.b6, b.b5, b.b4) && y == Four(x, b.b3, b.b2, b.b1, b.b0)
    ensures y == 256 * n + ToNat(b)
  {
    FourMore(n, b.b7, b.b6, b.b5, b.b4);
    FourMore(x, b.b3, b.b2, b.b1, b.b0);
    FourMore(h, b.b3, b.b2, b.b1, b.b0);
    ByteInFours(b);
    Sixteens(n, h, l, x, y, ToNat(b));
  }

  // The numbers of the prefixes.
  ghost function Prefixes(bits: seq<bool>): nat -> nat {
    (m: nat) => if m <= |bits| then Number(bits[..m]) else 0
  }

  ghost predicate Continues(p: nat -> nat, bits: seq<bool>, m: nat)
    requires m < |bits|
  {
    p(m + 1) == Append(p(m), bits[m])
  }

  lemma PrefixContinues(bits: seq<bool>, m: nat)
    requires m < |bits|
    ensures Continues(Prefixes(bits), bits, m)
  {
    assert bits[..m + 1][..m] == bits[..m];
  }

  lemma FourContinue(p: nat -> nat, bits: seq<bool>, m: nat)
    requires m + 4 <= |bits|
    requires forall i: nat {:trigger Continues(p, bits, i)} :: m <= i < m + 4 ==> Continues(p, bits, i)
    ensures p(m + 4) == Four(p(m), bits[m], bits[m + 1], bits[m + 2], bits[m + 3])
  {
    assert Continues(p, bits, m) && Continues(p, bits, m + 1);
    assert Continues(p, bits, m + 2) && Continues(p, bits, m + 3);
  }

  lemma NumberByte(a: seq<bool>, b: Byte)
    ensures Number(a + ByteBits(b)) == 256 * Number(a) + ToNat(b)
  {
    var bits, m := a + ByteBits(b), |a|;
    var p := Prefixes(bits);
    forall i: nat | m <= i < m + 8 ensures Continues(p, bits, i) {
      PrefixContinues(bits, i);
    }
    FourContinue(p, bits, m);
    FourContinue(p, bits, m + 4);
    EightMore(p(m), b, Four(0, b.b7, b.b6, b.b5, b.b4), Four(0, b.b3, b.b2, b.b1, b.b0), p(m + 4), p(m + 8));
    assert bits[..m] == a && bits[..m + 8] == bits;
  }

  lemma ShiftHalf(n: nat, i: nat)
    ensures ShiftRight(n, i + 1) == ShiftRight(n / 2, i)
  {
    if i > 0 {
      ShiftHalf(n, i - 1);
    }
  }

  lemma LastHalf(bits: seq<bool>)
    requires bits != []
    ensures Number(bits) / 2 == Number(bits[..|bits| - 1])
    ensures Number(bits) % 2 == 1 <==> bits[|bits| - 1]
  {
  }

  lemma {:induction false} NumberDigit(bits: seq<bool>, i: nat)
    requires i < |bits|
    ensures bits[|bits| - 1 - i] <==> ShiftRight(Number(bits), i) % 2 == 1
  {
    var n, init := Number(bits), bits[..|bits| - 1];
    LastHalf(bits);
    if i > 0 {
      NumberDigit(init, i - 1);
      ShiftHalf(n, i - 1);
      assert init[|init| - 1 - (i - 1)] == bits[|bits| - 1 - i];
    }
  }

  lemma BitsAt(a: Byte, i: nat)
    requires i < 8
    ensures ByteBits(a)[7 - i] == BitAt(a, i)
  {
  }

  // Bit i of a byte is the digit of 2 to the i.
  lemma BitDigit(a: Byte, i: nat)
    requires i < 8
    ensures BitAt(a, i) <==> ShiftRight(ToNat(a), i) % 2 == 1
  {
    var none: seq<bool> := [];
    var bits := none + ByteBits(a);
    NumberByte(none, a);
    NumberDigit(bits, i);
    BitsAt(a, i);
  }

  // In a vector of acknowledgements the id 8 k + j above the first is in byte k, the most significant bit first.
  lemma SackDigit(sack: seq<Byte>, first: nat, k: nat, j: nat)
    requires k < |sack| && j < 8
    ensures F.IsAcked(sack, first, first + 8 * k + j) <==> ShiftRight(ToNat(sack[k]), 7 - j) % 2 == 1
  {
    F.BitOf(sack, first, k, j);
    BitDigit(sack[k], 7 - j);
  }

  // ---------------------------------------------------------------- the header of a vector

  function FormatNumber(f: I.Format): nat {
    match f
    case Implicit => 0
    case UncompressedEdges => 1
    case CompressedList => 2
    case CompressedEdges => 3
  }

  function Bit(b: bool): nat {
    if b then 1 else 0
  }

  // The field in the high nibble, two bits of format, one each for coefficients and a generation.
  lemma FlagsNumber(ev: W.WireVector)
    ensures ToNat(W.Flags(ev))
         == 16 * Bit(ev.field == W.Gf256) + 4 * FormatNumber(ev.format) + 2 * Bit(ev.coefs != [])
            + Bit(ev.generation != ZERO)
    ensures W.FormatOf(W.Flags(ev)) == ev.format
  {
  }

  // The first eight bytes, as numbers.
  lemma HeaderNumbers(ev: W.WireVector, idBits: seq<Byte>, i: nat)
    requires i < 4
    ensures var b := W.Layout(ev, idBits);
            && |b| >= 8 && |b| % 4 == 0
            && ToNat(b[0]) == |b| / 4 % 256
            && b[1] == W.Flags(ev)
            && ToNat(b[2]) == |ev.ids| % 256 && ToNat(b[3]) == |ev.coefs| % 256
            && ToNat(b[4 + i]) == W.First(ev) / Pow256(3 - i) % 256
  {
    BeDigit(W.First(ev), WORD, i);
    var body := W.Body(ev, idBits, W.CoefBytes(ev));
    assert body[i] == Be32(W.First(ev))[i];
  }

  lemma WordNumbers(b: seq<Byte>, at: nat, n: nat, i: nat)
    requires at + 4 <= |b| && b[at..at + 4] == Be32(n) && i < 4
    ensures ToNat(b[at + i]) == n / Pow256(3 - i) % 256
  {
    BeDigit(n, WORD, i);
    assert b[at + i] == b[at..at + 4][i];
  }

  // The sixteen bytes in front of a vector of acknowledgements, as numbers.
  lemma ReportNumbers(p: F.FeedbackPacket, i: nat)
    requires i < 4
    ensures var b := F.Serialise(p);
            && |b| >= 16 && |b| % 4 == 0
            && ToNat(b[i]) == p.nbMissing / Pow256(3 - i) % 256
            && ToNat(b[4 + i]) == p.nbUnused / Pow256(3 - i) % 256
            && ToNat(b[8 + i]) == p.firstSrcId / Pow256(3 - i) % 256
            && b[12] == p.plr && ToNat(b[13]) == |p.sack| % 256 && b[14] == ZERO && b[15] == ZERO
  {
    var b := F.Serialise(p);
    F.SerialiseParts(p);
    ReportEnds(p);
    WordNumbers(b, 0, p.nbMissing, i);
    WordNumbers(b, 4, p.nbUnused, i);
    WordNumbers(b, 8, p.firstSrcId, i);
  }

  lemma ReportEnds(p: F.FeedbackPacket)
    ensures var b := F.Serialise(p);
            |b| >= 16 && |b| % 4 == 0 && b[14] == ZERO && b[15] == ZERO
  {
    var head := Be32(p.nbMissing) + Be32(p.nbUnused) + Be32(p.firstSrcId);
    var mid, tail := [p.plr, Octet(|p.sack|), ZERO, ZERO], Padding(|p.sack|);
    Middle(head, mid, p.sack, tail);
    assert F.Serialise(p) == head + mid + p.sack + tail;
  }

  lemma Middle(head: seq<Byte>, mid: seq<Byte>, sack: seq<Byte>, tail: seq<Byte>)
    requires |head| == 12 && |mid| == 4
    ensures var b := head + mid + sack + tail;
            |b| == 16 + |sack| + |tail| && b[14] == mid[2] && b[15] == mid[3]
  {
  }

  // ---------------------------------------------------------------- 16-bit fields

  lemma {:induction false} BitsOfByte(buf: seq<Byte>, i: nat)
    requires i < |buf|
    ensures AllBits(buf)[8 * i..8 * i + 8] == ByteBits(buf[i])
  {
    var init := buf[..|buf| - 1];
    if i < |init| {
      BitsOfByte(init, i);
      assert AllBits(buf)[8 * i..8 * i + 8] == AllBits(init)[8 * i..8 * i + 8];
    }
  }

  // Field k of a list of ids is two bytes, the more significant first.
  lemma FieldDigits(buf: seq<Byte>, k: nat)
    requires 2 * k + 2 <= |buf|
    ensures I.Word(buf, k) == 256 * ToNat(buf[2 * k]) + ToNat(buf[2 * k + 1])
  {
    BitsOfByte(buf, 2 * k);
    BitsOfByte(buf, 2 * k + 1);
    var bits := AllBits(buf);
    assert I.Chunk(bits, k) == bits[16 * k..16 * k + 8] + bits[16 * k + 8..16 * k + 16];
    assert I.Chunk(bits, k) == [] + ByteBits(buf[2 * k]) + ByteBits(buf[2 * k + 1]);
    NumberByte([], buf[2 * k]);
    NumberByte([] + ByteBits(buf[2 * k]), buf[2 * k + 1]);
  }
}
