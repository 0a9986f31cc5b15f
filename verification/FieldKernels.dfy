// The public multiply operations against the vectors of Rows.dfy: bytes over GF(2^8), and two
// elements in a byte over GF(2^4).

module FieldKernels {
  import opened Bytes
  import opened Fields
  import opened LogTables
  import opened Gf8
  import opened Gf4
  import opened Kernels
  import Rows

  function ByteKernel(t: NibbleTables): Kernel<Byte> {
    Kernel((a, b) => Xor(a, b), s => Lookup(t, s))
  }

  // ---------------------------------------------------------------- GF(2^8)

  lemma Acc8At(t: NibbleTables, coef: Byte, a: Byte, s: Byte)
    requires Tabulates(t, Times8(coef))
    ensures Xor(a, Lookup(t, s)) == Field8().add(a, Field8().mul(coef, s))
    ensures Lookup(t, s) == Field8().mul(coef, s)
  {
    Times8Linear(coef);
    LookupIs(t, Times8(coef), s);
    MulCommutes(Tables8(), coef, s);
  }

  lemma Acc8(t: NibbleTables, coef: Byte, dst: seq<Byte>, src: seq<Byte>)
    requires Tabulates(t, Times8(coef)) && |dst| == |src|
    ensures Accumulated(ByteKernel(t), dst, src) == Rows.MulAcc(Field8(), dst, src, coef)
    ensures Scaled(ByteKernel(t), src) == Rows.MulScale(Field8(), src, coef)
  {
    forall i | 0 <= i < |dst|
      ensures Xor(dst[i], Lookup(t, src[i])) == Field8().add(dst[i], Field8().mul(coef, src[i]))
      ensures Lookup(t, src[i]) == Field8().mul(coef, src[i])
    {
      Acc8At(t, coef, dst[i], src[i]);
    }
  }

  lemma ZeroAcc8(dst: seq<Byte>, src: seq<Byte>)
    requires |dst| == |src|
    ensures Rows.MulAcc(Field8(), dst, src, ZERO) == dst
    ensures forall i :: 0 <= i < |src| ==> Rows.MulScale(Field8(), src, ZERO)[i] == ZERO
  {
    AddLaws1();
  }

  lemma OneScale8(buf: seq<Byte>)
    ensures Rows.MulScale(Field8(), buf, ONE) == buf
  {
    Tables8Cyclic();
    forall i | 0 <= i < |buf| ensures Field8().mul(ONE, buf[i]) == buf[i] {
      MulOne(Tables8(), buf[i]);
    }
  }

  // dst[i] + coef * src[i] at every position, for every length and on every machine.
  method MulAccGf8(dst: array<Byte>, src: seq<Byte>, coef: Byte, dispatch: Dispatch)
    requires |src| == dst.Length
    modifies dst
    ensures dst[..] == Rows.MulAcc(Field8(), old(dst[..]), src, coef)
  {
    ZeroAcc8(dst[..], src);
    if coef == ZERO {
      return;
    }
    var t := BuildTables(Times8(coef));
    Acc8(t, coef, dst[..], src);
    MulAccRaw(dst, src, ByteKernel(t), dispatch);
  }

  method MulScaleGf8(buf: array<Byte>, coef: Byte, dispatch: Dispatch)
    modifies buf
    ensures buf[..] == Rows.MulScale(Field8(), old(buf[..]), coef)
  {
    ghost var was := buf[..];
    ZeroAcc8(was, was);
    OneScale8(was);
    if coef == ZERO {
      forall i | 0 <= i < buf.Length {
        buf[i] := ZERO;
      }
      assert buf[..] == Rows.MulScale(Field8(), was, ZERO);
      return;
    }
    if coef == ONE {
      return;
    }
    var t := BuildTables(Times8(coef));
    Acc8(t, coef, was, was);
    MulScaleRaw(buf, ByteKernel(t), dispatch);
  }

  // The reference loop computes the same.
  method MulAccGf8Reference(dst: array<Byte>, src: seq<Byte>, coef: Byte)
    requires |src| == dst.Length
    modifies dst
    ensures dst[..] == Rows.MulAcc(Field8(), old(dst[..]), src, coef)
  {
    ghost var was := dst[..];
    for i := 0 to dst.Length
      invariant forall j :: i <= j < dst.Length ==> dst[j] == was[j]
      invariant forall j :: 0 <= j < i ==> dst[j] == Rows.MulAcc(Field8(), was, src, coef)[j]
    {
      MulCommutes(Tables8(), coef, src[i]);
      dst[i] := Xor(dst[i], Mul8(src[i], coef));
    }
  }

  // ---------------------------------------------------------------- GF(2^4)

  // The elements of packed bytes, high half first.
  function Elements(p: seq<Byte>): (r: seq<Nibble>)
    ensures |r| == 2 * |p|
  {
    seq(2 * |p|, i requires 0 <= i < 2 * |p| => if i % 2 == 0 then High(p[i / 2]) else Low(p[i / 2]))
  }

  lemma Look4(t: NibbleTables, c: Nibble, s: Byte)
    requires Tabulates(t, Times4(Pack(c, c)))
    ensures Lookup(t, s) == Pack(Mul4(High(s), c), Mul4(Low(s), c))
  {
    Times4Linear(Pack(c, c));
    LookupIs(t, Times4(Pack(c, c)), s);
  }

  lemma Look4Parts(t: NibbleTables, c: Nibble, s: Byte)
    requires Tabulates(t, Times4(Pack(c, c)))
    ensures High(Lookup(t, s)) == Field4().mul(c, High(s)) && Low(Lookup(t, s)) == Field4().mul(c, Low(s))
  {
    Look4(t, c, s);
    MulCommutes(Tables4(), c, High(s));
    MulCommutes(Tables4(), c, Low(s));
  }

  lemma Acc4At(t: NibbleTables, c: Nibble, a: Byte, s: Byte)
    requires Tabulates(t, Times4(Pack(c, c)))
    ensures High(Xor(a, Lookup(t, s))) == Field4().add(High(a), Field4().mul(c, High(s)))
    ensures Low(Xor(a, Lookup(t, s))) == Field4().add(Low(a), Field4().mul(c, Low(s)))
  {
    Look4Parts(t, c, s);
    XorHigh(a, Lookup(t, s));
    XorLow(a, Lookup(t, s));
  }

  lemma Acc4(t: NibbleTables, c: Nibble, dst: seq<Byte>, src: seq<Byte>)
    requires Tabulates(t, Times4(Pack(c, c))) && |dst| == |src|
    ensures Elements(Accumulated(ByteKernel(t), dst, src)) == Rows.MulAcc(Field4(), Elements(dst), Elements(src), c)
  {
    var r := Accumulated(ByteKernel(t), dst, src);
    forall i | 0 <= i < 2 * |dst|
      ensures Elements(r)[i] == Field4().add(Elements(dst)[i], Field4().mul(c, Elements(src)[i]))
    {
      Acc4Element(t, c, dst, src, i);
    }
  }

  lemma Acc4Element(t: NibbleTables, c: Nibble, dst: seq<Byte>, src: seq<Byte>, i: nat)
    requires Tabulates(t, Times4(Pack(c, c))) && |dst| == |src| && i < 2 * |dst|
    ensures Elements(Accumulated(ByteKernel(t), dst, src))[i]
         == Field4().add(Elements(dst)[i], Field4().mul(c, Elements(src)[i]))
  {
    Acc4At(t, c, dst[i / 2], src[i / 2]);
    var r := Accumulated(ByteKernel(t), dst, src);
    assert r[i / 2] == Xor(dst[i / 2], Lookup(t, src[i / 2]));
    ElementAt(r, i);
    ElementAt(dst, i);
    ElementAt(src, i);
  }

  lemma ElementAt(p: seq<Byte>, i: nat)
    requires i < 2 * |p|
    ensures Elements(p)[i] == if i % 2 == 0 then High(p[i / 2]) else Low(p[i / 2])
  {
  }

  lemma Scale4(t: NibbleTables, c: Nibble, buf: seq<Byte>)
    requires Tabulates(t, Times4(Pack(c, c)))
    ensures Elements(Scaled(ByteKernel(t), buf)) == Rows.MulScale(Field4(), Elements(buf), c)
  {
    var r := Scaled(ByteKernel(t), buf);
    forall i | 0 <= i < 2 * |buf| ensures Elements(r)[i] == Field4().mul(c, Elements(buf)[i]) {
      Look4Parts(t, c, buf[i / 2]);
      assert r[i / 2] == Lookup(t, buf[i / 2]);
    }
  }

  lemma ZeroAcc4(dst: seq<Nibble>, src: seq<Nibble>)
    requires |dst| == |src|
    ensures Rows.MulAcc(Field4(), dst, src, NIBBLE_ZERO) == dst
    ensures forall i :: 0 <= i < |src| ==> Rows.MulScale(Field4(), src, NIBBLE_ZERO)[i] == NIBBLE_ZERO
  {
    Gf4.AddLaws();
  }

  // Both halves of every byte by the low half of coef.
  method MulAccGf4(dst: array<Byte>, src: seq<Byte>, coef: Byte, dispatch: Dispatch)
    requires |src| == dst.Length
    modifies dst
    ensures Elements(dst[..]) == Rows.MulAcc(Field4(), Elements(old(dst[..])), Elements(src), Low(coef))
  {
    var c := Low(coef);
    ZeroAcc4(Elements(dst[..]), Elements(src));
    if c == NIBBLE_ZERO {
      return;
    }
    var t := BuildTables(Times4(Pack(c, c)));
    Acc4(t, c, dst[..], src);
    MulAccRaw(dst, src, ByteKernel(t), dispatch);
  }

  method MulScaleGf4(buf: array<Byte>, coef: Byte, dispatch: Dispatch)
    modifies buf
    ensures Elements(buf[..]) == Rows.MulScale(Field4(), Elements(old(buf[..])), Low(coef))
  {
    var c := Low(coef);
    ghost var was := buf[..];
    ZeroAcc4(Elements(was), Elements(was));
    if c == NIBBLE_ZERO {
      forall i | 0 <= i < buf.Length {
        buf[i] := ZERO;
      }
      assert forall i :: 0 <= i < 2 * buf.Length ==> Elements(buf[..])[i] == NIBBLE_ZERO;
      assert Elements(buf[..]) == Rows.MulScale(Field4(), Elements(was), NIBBLE_ZERO);
      return;
    }
    var t := BuildTables(Times4(Pack(c, c)));
    Scale4(t, c, was);
    MulScaleRaw(buf, ByteKernel(t), dispatch);
  }
}
