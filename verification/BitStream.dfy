// Bit fields packed into bytes, most significant bit first.

module BitStreams {
  import opened Bytes
  import opened LogTables

  function Pow2(n: nat): (p: nat)
    ensures p > 0
  {
    if n == 0 then 1 else 2 * Pow2(n - 1)
  }

  function ByteBits(b: Byte): (r: seq<bool>)
    ensures |r| == 8
  {
    [b.b7, b.b6, b.b5, b.b4, b.b3, b.b2, b.b1, b.b0]
  }

  function AllBits(buf: seq<Byte>): (r: seq<bool>)
    ensures |r| == 8 * |buf|
  {
    if buf == [] then [] else AllBits(buf[..|buf| - 1]) + ByteBits(buf[|buf| - 1])
  }

  // The low n bits of v.
  function ValueBits(v: nat, n: nat): (r: seq<bool>)
    ensures |r| == n
  {
    if n == 0 then [] else ValueBits(v / 2, n - 1) + [v % 2 == 1]
  }

  function Number(bits: seq<bool>): nat {
    if bits == [] then 0 else 2 * Number(bits[..|bits| - 1]) + if bits[|bits| - 1] then 1 else 0
  }

  // The bits of the leading digits, and one more.
  lemma BitsGrow(before: seq<bool>, v: nat, nbits: nat, i: nat)
    requires i < nbits
    ensures before + ValueBits(ShiftRight(v, i), nbits - i)
         == before + ValueBits(ShiftRight(v, i + 1), nbits - i - 1) + [ShiftRight(v, i) % 2 == 1]
  {
    assert ShiftRight(v, i + 1) == ShiftRight(v, i) / 2;
  }

  lemma DoubleRemainder(v: nat, p: nat)
    requires p > 0
    ensures 2 * (v / 2 % p) + v % 2 == v % (2 * p)
  {
    var h := v / 2;
    var q, r := h / p, h % p;
    assert h == p * q + r;
    assert p * q * 2 == 2 * p * q;
    Remainder(v, q, 2 * r + v % 2, 2 * p);
  }

  lemma {:induction false} NumberOfValue(v: nat, n: nat)
    ensures Number(ValueBits(v, n)) == v % Pow2(n)
  {
    if n > 0 {
      NumberOfValue(v / 2, n - 1);
      var bits := ValueBits(v, n);
      assert bits[..n - 1] == ValueBits(v / 2, n - 1);
      DoubleRemainder(v, Pow2(n - 1));
    }
  }

  function ShiftRight(v: nat, k: nat): nat {
    if k == 0 then v else ShiftRight(v, k - 1) / 2
  }

  // What has been written once the digits from i on are.
  ghost function Leading(before: seq<bool>, v: nat, nbits: nat, i: nat): seq<bool>
    requires i <= nbits
  {
    before + ValueBits(ShiftRight(v, i), nbits - i)
  }

  // ---------------------------------------------------------------- writing

  function ShiftIn(b: Byte, bit: bool): Byte {
    Byte(b.b6, b.b5, b.b4, b.b3, b.b2, b.b1, b.b0, bit)
  }

  function ShiftBy(b: Byte, k: nat): Byte {
    if k == 0 then b else Shl(ShiftBy(b, k - 1))
  }

  ghost function Zeros(n: nat): (r: seq<bool>)
    ensures |r| == n
  {
    seq(n, _ => false)
  }

  lemma ShlBits(b: Byte)
    ensures ByteBits(Shl(b)) == ByteBits(b)[1..] + [false]
  {
  }

  lemma SlideZeros(s: seq<bool>, k: nat)
    requires 0 < k <= |s|
    ensures (s[k - 1..] + Zeros(k - 1))[1..] + [false] == s[k..] + Zeros(k)
  {
  }

  lemma {:induction false} ShiftByBits(b: Byte, k: nat)
    requires k <= 8
    ensures ByteBits(ShiftBy(b, k)) == ByteBits(b)[k..] + Zeros(k)
  {
    if k > 0 {
      ShiftByBits(b, k - 1);
      ShlBits(ShiftBy(b, k - 1));
      SlideZeros(ByteBits(b), k);
    } else {
      assert ByteBits(b)[0..] + Zeros(0) == ByteBits(b);
    }
  }

  lemma ShiftInBits(b: Byte, bit: bool)
    ensures ByteBits(ShiftIn(b, bit)) == ByteBits(b)[1..] + [bit]
  {
  }

  lemma SlideIn(s: seq<bool>, bit: bool, pos: nat)
    requires pos < 8 == |s|
    ensures (s[1..] + [bit])[8 - (pos + 1)..] == s[8 - pos..] + [bit]
  {
  }

  lemma AppendByte(buf: seq<Byte>, b: Byte)
    ensures AllBits(buf + [b]) == AllBits(buf) + ByteBits(b)
  {
    assert (buf + [b])[..|buf|] == buf;
  }

  // Whole bytes, and the last pos bits of the current one.
  ghost function Written(buf: seq<Byte>, cur: Byte, pos: nat): seq<bool>
    requires pos <= 8
  {
    AllBits(buf) + ByteBits(cur)[8 - pos..]
  }

  lemma WrittenBit(buf: seq<Byte>, cur: Byte, pos: nat, bit: bool)
    requires pos < 8
    ensures Written(buf, ShiftIn(cur, bit), pos + 1) == Written(buf, cur, pos) + [bit]
  {
    ShiftInBits(cur, bit);
    SlideIn(ByteBits(cur), bit, pos);
  }

  lemma WrittenByte(buf: seq<Byte>, cur: Byte)
    ensures Written(buf + [cur], ZERO, 0) == Written(buf, cur, 8) == AllBits(buf + [cur])
  {
    AppendByte(buf, cur);
  }

  lemma WrittenPart(buf: seq<Byte>, cur: Byte, pos: nat)
    requires pos < 8
    ensures AllBits(buf + [ShiftBy(cur, 8 - pos)]) == Written(buf, cur, pos) + Zeros(8 - pos)
  {
    ShiftByBits(cur, 8 - pos);
    AppendByte(buf, ShiftBy(cur, 8 - pos));
  }

  // The bytes of the writer once its last one is filled up.
  lemma WrittenAll(buf: seq<Byte>, cur: Byte, pos: nat, out: seq<Byte>)
    requires pos < 8 && out == if pos > 0 then buf + [ShiftBy(cur, 8 - pos)] else buf
    ensures var bits := Written(buf, cur, pos);
            |bits| <= 8 * |out| < |bits| + 8 && AllBits(out) == bits + Zeros(8 * |out| - |bits|)
  {
    if pos > 0 {
      WrittenPart(buf, cur, pos);
    }
  }

  class BitWriter {
    var buf: seq<Byte>
    var curByte: Byte
    var bitPos: nat

    ghost predicate Valid()
      reads this
    {
      bitPos < 8
    }

    // Everything written so far.
    ghost function Bits(): seq<bool>
      requires Valid()
      reads this
    {
      Written(buf, curByte, bitPos)
    }

    constructor ()
      ensures Valid() && Bits() == []
    {
      buf, curByte, bitPos := [], ZERO, 0;
    }

    method WriteBit(bit: bool)
      requires Valid()
      modifies this
      ensures Valid() && Bits() == old(Bits()) + [bit]
    {
      WrittenBit(buf, curByte, bitPos, bit);
      curByte := ShiftIn(curByte, bit);
      bitPos := bitPos + 1;
      if bitPos == 8 {
        WrittenByte(buf, curByte);
        buf := buf + [curByte];
        curByte := ZERO;
        bitPos := 0;
      }
    }

    // Bit i of the value, after those above it.
    method WriteDigit(ghost before: seq<bool>, value: nat, ghost nbits: nat, i: nat)
      requires Valid() && i < nbits && Bits() == Leading(before, value, nbits, i + 1)
      modifies this
      ensures Valid() && Bits() == Leading(before, value, nbits, i)
    {
      WriteBit(ShiftRight(value, i) % 2 == 1);
      BitsGrow(before, value, nbits, i);
    }

    method WriteBits(value: nat, nbits: nat)
      requires Valid()
      modifies this
      ensures Valid() && Bits() == old(Bits()) + ValueBits(value, nbits)
    {
      ghost var before := Bits();
      for i := nbits downto 0
        invariant Valid() && Bits() == Leading(before, value, nbits, i)
      {
        WriteDigit(before, value, nbits, i);
      }
    }

    // The last byte is filled up with zeros.
    method Finish() returns (out: seq<Byte>)
      requires Valid()
      ensures |Bits()| <= 8 * |out| < |Bits()| + 8
      ensures AllBits(out) == Bits() + Zeros(8 * |out| - |Bits()|)
    {
      out := buf;
      if bitPos > 0 {
        out := out + [ShiftBy(curByte, 8 - bitPos)];
      }
      WrittenAll(buf, curByte, bitPos, out);
    }
  }

  // ---------------------------------------------------------------- reading

  lemma {:induction false} BitOfAll(buf: seq<Byte>, i: nat, j: nat)
    requires i < |buf| && j < 8
    ensures AllBits(buf)[8 * i + j] == BitAt(buf[i], 7 - j)
  {
    if i < |buf| - 1 {
      BitOfAll(buf[..|buf| - 1], i, j);
    } else {
      assert AllBits(buf)[8 * i + j] == ByteBits(buf[i])[j];
    }
  }

  class BitReader {
    const buf: seq<Byte>
    var byteI: nat
    var bitPos: nat

    ghost predicate Valid()
      reads this
    {
      bitPos < 8 && byteI <= |buf| && (byteI == |buf| ==> bitPos == 0)
    }

    ghost function Position(): (p: nat)
      requires Valid()
      reads this
      ensures p <= 8 * |buf|
    {
      8 * byteI + bitPos
    }

    constructor (buf: seq<Byte>)
      ensures Valid() && this.buf == buf && Position() == 0
    {
      this.buf := buf;
      byteI, bitPos := 0, 0;
    }

    method ReadBit() returns (bit: bool)
      requires Valid() && byteI < |buf|
      modifies this
      ensures Valid() && Position() == old(Position()) + 1 && bit == AllBits(buf)[old(Position())]
    {
      BitOfAll(buf, byteI, bitPos);
      bit := BitAt(buf[byteI], 7 - bitPos);
      bitPos := bitPos + 1;
      if bitPos == 8 {
        byteI := byteI + 1;
        bitPos := 0;
      }
    }

    // Fewer bits when the buffer ends.
    method ReadBits(nbits: nat) returns (val: nat)
      requires Valid()
      modifies this
      ensures Valid() && Position() == Stop(buf, old(Position()), nbits)
      ensures val == Number(AllBits(buf)[old(Position())..Position()])
    {
      val := 0;
      ghost var start := Position();
      for k := 0 to nbits
        invariant Valid() && Position() == start + k <= 8 * |buf|
        invariant val == Number(AllBits(buf)[start..Position()])
      {
        if byteI >= |buf| {
          break;
        }
        ghost var at := Position();
        var bit := ReadBit();
        assert AllBits(buf)[start..at + 1] == AllBits(buf)[start..at] + [bit];
        val := 2 * val + if bit then 1 else 0;
      }
    }

    method BytesConsumed() returns (n: nat)
      requires Valid()
      ensures 8 * n - 8 < Position() <= 8 * n
    {
      n := if bitPos > 0 then byteI + 1 else byteI;
    }

    method RemainingBits() returns (n: nat)
      requires Valid()
      ensures n == 8 * |buf| - Position()
    {
      n := (|buf| - byteI) * 8 - bitPos;
    }
  }

  // Where a read of n bits ends.
  ghost function Stop(buf: seq<Byte>, from: nat, n: nat): nat
    requires from <= 8 * |buf|
  {
    if from + n <= 8 * |buf| then from + n else 8 * |buf|
  }

  // ---------------------------------------------------------------- round trip

  datatype BitField = BitField(value: nat, nbits: nat)

  ghost function FieldBits(fields: seq<BitField>): seq<bool> {
    if fields == [] then []
    else FieldBits(fields[..|fields| - 1]) + ValueBits(fields[|fields| - 1].value, fields[|fields| - 1].nbits)
  }

  lemma {:induction false} FieldsPrefix(fields: seq<BitField>, i: nat)
    requires i <= |fields|
    ensures |FieldBits(fields[..i])| <= |FieldBits(fields)|
    ensures FieldBits(fields)[..|FieldBits(fields[..i])|] == FieldBits(fields[..i])
  {
    if i < |fields| {
      FieldsPrefix(fields[..|fields| - 1], i);
      assert fields[..|fields| - 1][..i] == fields[..i];
    } else {
      assert fields[..i] == fields;
    }
  }

  method WriteFields(fields: seq<BitField>) returns (buf: seq<Byte>)
    ensures |FieldBits(fields)| <= 8 * |buf| < |FieldBits(fields)| + 8
    ensures AllBits(buf)[..|FieldBits(fields)|] == FieldBits(fields)
  {
    var w := new BitWriter();
    for i := 0 to |fields|
      invariant w.Valid() && w.Bits() == FieldBits(fields[..i])
    {
      assert fields[..i + 1][..i] == fields[..i];
      w.WriteBits(fields[i].value, fields[i].nbits);
    }
    assert fields[..|fields|] == fields;
    buf := w.Finish();
  }

  // The bits of field i, where the reader finds them.
  lemma FieldAt(buf: seq<Byte>, fields: seq<BitField>, i: nat)
    requires i < |fields| && |FieldBits(fields)| <= 8 * |buf|
    requires AllBits(buf)[..|FieldBits(fields)|] == FieldBits(fields)
    ensures var p, q := |FieldBits(fields[..i])|, |FieldBits(fields[..i + 1])|;
            && q == p + fields[i].nbits <= 8 * |buf|
            && AllBits(buf)[p..q] == ValueBits(fields[i].value, fields[i].nbits)
  {
    assert fields[..i + 1][..i] == fields[..i];
    FieldsPrefix(fields, i + 1);
    var p, q := |FieldBits(fields[..i])|, |FieldBits(fields[..i + 1])|;
    assert AllBits(buf)[..q] == FieldBits(fields[..i + 1]);
    assert AllBits(buf)[p..q] == AllBits(buf)[..q][p..q];
  }

  method ReadField(r: BitReader, fields: seq<BitField>, i: nat) returns (v: nat)
    requires r.Valid() && i < |fields| && |FieldBits(fields)| <= |AllBits(r.buf)|
    requires AllBits(r.buf)[..|FieldBits(fields)|] == FieldBits(fields) && r.Position() == |FieldBits(fields[..i])|
    modifies r
    ensures r.Valid() && r.Position() == |FieldBits(fields[..i + 1])|
    ensures v == fields[i].value % Pow2(fields[i].nbits)
  {
    FieldAt(r.buf, fields, i);
    v := r.ReadBits(fields[i].nbits);
    NumberOfValue(fields[i].value, fields[i].nbits);
  }

  // Any sequence of fields is read back, each reduced to its width.
  method WriteThenRead(fields: seq<BitField>) returns (values: seq<nat>)
    ensures |values| == |fields|
    ensures forall i :: 0 <= i < |fields| ==> values[i] == fields[i].value % Pow2(fields[i].nbits)
  {
    var buf := WriteFields(fields);
    var r := new BitReader(buf);
    values := [];
    for i := 0 to |fields|
      invariant r.Valid() && r.buf == buf && |values| == i && r.Position() == |FieldBits(fields[..i])|
      invariant forall j :: 0 <= j < i ==> values[j] == fields[j].value % Pow2(fields[j].nbits)
    {
      var v := ReadField(r, fields, i);
      values := values + [v];
    }
  }
}
