// The multiply kernels: split-nibble tables, and loops over 64, 16 and single bytes.

module Kernels {
  import opened Bytes
  import opened Fields
  import opened LogTables
  import opened Gf8
  import opened Gf4

  // ---------------------------------------------------------------- split-nibble tables

  // Sixteen products for the low nibble and sixteen for the high one.
  datatype NibbleTables = NibbleTables(lo: seq<Byte>, hi: seq<Byte>)

  function LowByte(n: Nibble): Byte {
    Pack(NIBBLE_ZERO, n)
  }

  function HighByte(n: Nibble): Byte {
    Pack(n, NIBBLE_ZERO)
  }

  ghost predicate Sized(t: NibbleTables) {
    |t.lo| == 16 && |t.hi| == 16
  }

  // The tables hold f of the sixteen low bytes and of the sixteen high bytes.
  ghost predicate Tabulates(t: NibbleTables, f: Byte -> Byte) {
    && Sized(t)
    && forall x: nat {:trigger NibbleOf(x)} :: x < 16 ==>
         t.lo[x] == f(LowByte(NibbleOf(x))) && t.hi[x] == f(HighByte(NibbleOf(x)))
  }

  ghost predicate Linear(f: Byte -> Byte) {
    forall a, b {:trigger f(Xor(a, b))} :: f(Xor(a, b)) == Xor(f(a), f(b))
  }

  // Two lookups and an addition.
  function Lookup(t: NibbleTables, s: Byte): Byte {
    if NibbleNat(Low(s)) < |t.lo| && NibbleNat(High(s)) < |t.hi| then
      Xor(t.lo[NibbleNat(Low(s))], t.hi[NibbleNat(High(s))])
    else ZERO
  }

  lemma SplitByte(s: Byte)
    ensures s == Xor(LowByte(Low(s)), HighByte(High(s)))
  {
  }

  // For a linear function the two lookups are the function.
  lemma LookupIs(t: NibbleTables, f: Byte -> Byte, s: Byte)
    requires Tabulates(t, f) && Linear(f)
    ensures Lookup(t, s) == f(s)
  {
    var lo, hi := Low(s), High(s);
    NibbleNatBelow(lo);
    NibbleNatBelow(hi);
    SplitByte(s);
    assert f(Xor(LowByte(lo), HighByte(hi))) == Xor(f(LowByte(lo)), f(HighByte(hi)));
  }

  // ---------------------------------------------------------------- the functions tabulated

  function Times8(coef: Byte): Byte -> Byte {
    s => Mul8(s, coef)
  }

  // Two elements in a byte, each with its own coefficient.
  function Times4(coef: Byte): Byte -> Byte {
    s => Pack(Mul4(High(s), High(coef)), Mul4(Low(s), Low(coef)))
  }

  lemma MulCommutes<T>(G: Powers<T>, a: T, b: T)
    ensures Mul(G, a, b) == Mul(G, b, a)
  {
  }

  lemma Times8Linear(coef: Byte)
    ensures Linear(Times8(coef))
  {
    Tables8Cyclic();
    forall a, b ensures Mul8(Xor(a, b), coef) == Xor(Mul8(a, coef), Mul8(b, coef)) {
      MulDistributes(Tables8(), coef, a, b);
      MulCommutes(Tables8(), coef, a);
      MulCommutes(Tables8(), coef, b);
      MulCommutes(Tables8(), coef, Xor(a, b));
    }
  }

  lemma Mul4Linear(a: Nibble, b: Nibble, c: Nibble)
    ensures Mul4(NibbleXor(a, b), c) == NibbleXor(Mul4(a, c), Mul4(b, c))
  {
    MulXor(c, a, b);
    MulCommutes(Tables4(), c, a);
    MulCommutes(Tables4(), c, b);
    MulCommutes(Tables4(), c, NibbleXor(a, b));
  }

  lemma XorPack(a: Nibble, b: Nibble, c: Nibble, d: Nibble)
    ensures Xor(Pack(a, b), Pack(c, d)) == Pack(NibbleXor(a, c), NibbleXor(b, d))
  {
  }

  lemma XorHigh(a: Byte, b: Byte)
    ensures High(Xor(a, b)) == NibbleXor(High(a), High(b))
  {
  }

  lemma XorLow(a: Byte, b: Byte)
    ensures Low(Xor(a, b)) == NibbleXor(Low(a), Low(b))
  {
  }

  lemma Times4Linear(coef: Byte)
    ensures Linear(Times4(coef))
  {
    var f := Times4(coef);
    forall a, b ensures f(Xor(a, b)) == Xor(f(a), f(b)) {
      XorHigh(a, b);
      XorLow(a, b);
      Mul4Linear(High(a), High(b), High(coef));
      Mul4Linear(Low(a), Low(b), Low(coef));
      XorPack(Mul4(High(a), High(coef)), Mul4(Low(a), Low(coef)), Mul4(High(b), High(coef)), Mul4(Low(b), Low(coef)));
    }
  }

  // The loop that fills the tables, for the product `f` of a low or a high byte.
  method BuildTables(f: Byte -> Byte) returns (t: NibbleTables)
    ensures Tabulates(t, f)
  {
    var lo, hi := [], [];
    for x := 0 to 16
      invariant |lo| == |hi| == x
      invariant forall k: nat {:trigger NibbleOf(k)} :: k < x ==>
        lo[k] == f(LowByte(NibbleOf(k))) && hi[k] == f(HighByte(NibbleOf(k)))
    {
      lo := lo + [f(LowByte(NibbleOf(x)))];
      hi := hi + [f(HighByte(NibbleOf(x)))];
    }
    t := NibbleTables(lo, hi);
  }

  // ---------------------------------------------------------------- kernels

  // From here on a byte is any type, `look` the two lookups and `add` the addition.
  datatype Kernel<!T> = Kernel(add: (T, T) -> T, look: T -> T)

  // Positions from lo to hi hold what is wanted, the others what they held.
  ghost predicate Replaced<T>(now: seq<T>, was: seq<T>, want: seq<T>, lo: nat, hi: nat) {
    && |now| == |was| == |want|
    && forall i {:trigger now[i]} :: 0 <= i < |now| ==> now[i] == if lo <= i < hi then want[i] else was[i]
  }

  function Accumulated<T>(k: Kernel<T>, dst: seq<T>, src: seq<T>): (r: seq<T>)
    requires |dst| == |src|
    ensures |r| == |dst|
  {
    seq(|dst|, i requires 0 <= i < |dst| => k.add(dst[i], k.look(src[i])))
  }

  function Scaled<T>(k: Kernel<T>, buf: seq<T>): (r: seq<T>)
    ensures |r| == |buf|
  {
    seq(|buf|, i requires 0 <= i < |buf| => k.look(buf[i]))
  }

  method ScalarMulAcc<T>(dst: array<T>, src: seq<T>, k: Kernel<T>, lo: nat, hi: nat)
    requires |src| == dst.Length && lo <= hi <= dst.Length
    modifies dst
    ensures Replaced(dst[..], old(dst[..]), Accumulated(k, old(dst[..]), src), lo, hi)
  {
    for i := lo to hi
      invariant Replaced(dst[..], old(dst[..]), Accumulated(k, old(dst[..]), src), lo, i)
    {
      dst[i] := k.add(dst[i], k.look(src[i]));
    }
  }

  // Load, shuffle and add, store: the lanes from off on, all read before any is written.
  method Lanes<T>(dst: array<T>, src: seq<T>, k: Kernel<T>, off: nat, width: nat)
    requires |src| == dst.Length && off + width <= dst.Length
    modifies dst
    ensures Replaced(dst[..], old(dst[..]), Accumulated(k, old(dst[..]), src), off, off + width)
  {
    var inp, cur := src[off..off + width], dst[off..off + width];
    var prod := seq(width, j requires 0 <= j < width => k.add(cur[j], k.look(inp[j])));
    forall j | 0 <= j < width {
      dst[off + j] := prod[j];
    }
    forall i | 0 <= i < dst.Length
      ensures dst[i] == if off <= i < off + width then Accumulated(k, old(dst[..]), src)[i] else old(dst[i])
    {
      if off <= i < off + width {
        assert dst[off + (i - off)] == prod[i - off];
      }
    }
  }

  lemma Chain<T>(a: seq<T>, b: seq<T>, c: seq<T>, want: seq<T>, want': seq<T>, lo: nat, mid: nat, hi: nat)
    requires Replaced(b, a, want, lo, mid) && Replaced(c, b, want', mid, hi) && lo <= mid <= hi
    requires |want| == |want'| && forall i :: 0 <= i < |want| && mid <= i < hi ==> want'[i] == want[i]
    ensures Replaced(c, a, want, lo, hi)
  {
  }

  lemma AccumulateRest<T>(k: Kernel<T>, was: seq<T>, now: seq<T>, src: seq<T>, lo: nat, mid: nat)
    requires |src| == |was| && Replaced(now, was, Accumulated(k, was, src), lo, mid)
    ensures forall i :: 0 <= i < |was| && mid <= i ==> Accumulated(k, now, src)[i] == Accumulated(k, was, src)[i]
  {
  }

  // One more stretch of lanes after those from lo to mid.
  method Advance<T>(dst: array<T>, src: seq<T>, k: Kernel<T>, ghost was: seq<T>, lo: nat, mid: nat, width: nat)
    requires |src| == dst.Length == |was| && lo <= mid && mid + width <= dst.Length
    requires Replaced(dst[..], was, Accumulated(k, was, src), lo, mid)
    modifies dst
    ensures Replaced(dst[..], was, Accumulated(k, was, src), lo, mid + width)
  {
    ghost var now := dst[..];
    AccumulateRest(k, was, now, src, lo, mid);
    Lanes(dst, src, k, mid, width);
    Chain(was, now, dst[..], Accumulated(k, was, src), Accumulated(k, now, src), lo, mid, mid + width);
  }

  // The SSSE3 and NEON loops: 16 bytes at a time, then the tail.
  method ChunkMulAcc<T>(dst: array<T>, src: seq<T>, k: Kernel<T>, lo: nat, hi: nat)
    requires |src| == dst.Length && lo <= hi <= dst.Length
    modifies dst
    ensures Replaced(dst[..], old(dst[..]), Accumulated(k, old(dst[..]), src), lo, hi)
  {
    ghost var was := dst[..];
    var chunks := (hi - lo) / 16;
    for i := 0 to chunks
      invariant Replaced(dst[..], was, Accumulated(k, was, src), lo, lo + 16 * i)
    {
      Advance(dst, src, k, was, lo, lo + 16 * i, 16);
    }
    var base := lo + 16 * chunks;
    ghost var now := dst[..];
    AccumulateRest(k, was, now, src, lo, base);
    ScalarMulAcc(dst, src, k, base, hi);
    Chain(was, now, dst[..], Accumulated(k, was, src), Accumulated(k, now, src), lo, base, hi);
  }

  // The AVX2 loop: two chains of 32 bytes a turn, then the 16-byte loop on what is left.
  method UnrolledMulAcc<T>(dst: array<T>, src: seq<T>, k: Kernel<T>)
    requires |src| == dst.Length
    modifies dst
    ensures dst[..] == Accumulated(k, old(dst[..]), src)
  {
    ghost var was := dst[..];
    var unrolled := dst.Length / 64;
    for i := 0 to unrolled
      invariant Replaced(dst[..], was, Accumulated(k, was, src), 0, 64 * i)
    {
      Advance(dst, src, k, was, 0, 64 * i, 32);
      Advance(dst, src, k, was, 0, 64 * i + 32, 32);
    }
    var base := 64 * unrolled;
    ghost var now := dst[..];
    AccumulateRest(k, was, now, src, 0, base);
    ChunkMulAcc(dst, src, k, base, dst.Length);
    Chain(was, now, dst[..], Accumulated(k, was, src), Accumulated(k, now, src), 0, base, dst.Length);
  }

  datatype Dispatch = Avx2 | Ssse3 | Neon | Scalar

  // Whichever loop the machine selects computes the same.
  method MulAccRaw<T>(dst: array<T>, src: seq<T>, k: Kernel<T>, dispatch: Dispatch)
    requires |src| == dst.Length
    modifies dst
    ensures dst[..] == Accumulated(k, old(dst[..]), src)
  {
    match dispatch
    case Avx2 => UnrolledMulAcc(dst, src, k);
    case Ssse3 => ChunkMulAcc(dst, src, k, 0, dst.Length);
    case Neon => ChunkMulAcc(dst, src, k, 0, dst.Length);
    case Scalar => ScalarMulAcc(dst, src, k, 0, dst.Length);
  }

  // ---------------------------------------------------------------- scaling in place

  method ScalarMulScale<T>(buf: array<T>, k: Kernel<T>, lo: nat, hi: nat)
    requires lo <= hi <= buf.Length
    modifies buf
    ensures Replaced(buf[..], old(buf[..]), Scaled(k, old(buf[..])), lo, hi)
  {
    for i := lo to hi
      invariant Replaced(buf[..], old(buf[..]), Scaled(k, old(buf[..])), lo, i)
    {
      buf[i] := k.look(buf[i]);
    }
  }

  method ScaleLanes<T>(buf: array<T>, k: Kernel<T>, off: nat, width: nat)
    requires off + width <= buf.Length
    modifies buf
    ensures Replaced(buf[..], old(buf[..]), Scaled(k, old(buf[..])), off, off + width)
  {
    var inp := buf[off..off + width];
    forall j | 0 <= j < width {
      buf[off + j] := k.look(inp[j]);
    }
    forall i | 0 <= i < buf.Length
      ensures buf[i] == if off <= i < off + width then Scaled(k, old(buf[..]))[i] else old(buf[i])
    {
      if off <= i < off + width {
        assert buf[off + (i - off)] == k.look(inp[i - off]);
      }
    }
  }

  lemma ScaleRest<T>(k: Kernel<T>, was: seq<T>, now: seq<T>, lo: nat, mid: nat)
    requires Replaced(now, was, Scaled(k, was), lo, mid)
    ensures forall i :: 0 <= i < |was| && mid <= i ==> Scaled(k, now)[i] == Scaled(k, was)[i]
  {
  }

  method AdvanceScale<T>(buf: array<T>, k: Kernel<T>, ghost was: seq<T>, lo: nat, mid: nat, width: nat)
    requires buf.Length == |was| && lo <= mid && mid + width <= buf.Length
    requires Replaced(buf[..], was, Scaled(k, was), lo, mid)
    modifies buf
    ensures Replaced(buf[..], was, Scaled(k, was), lo, mid + width)
  {
    ghost var now := buf[..];
    ScaleRest(k, was, now, lo, mid);
    ScaleLanes(buf, k, mid, width);
    Chain(was, now, buf[..], Scaled(k, was), Scaled(k, now), lo, mid, mid + width);
  }

  method ChunkMulScale<T>(buf: array<T>, k: Kernel<T>, lo: nat, hi: nat)
    requires lo <= hi <= buf.Length
    modifies buf
    ensures Replaced(buf[..], old(buf[..]), Scaled(k, old(buf[..])), lo, hi)
  {
    ghost var was := buf[..];
    var chunks := (hi - lo) / 16;
    for i := 0 to chunks
      invariant Replaced(buf[..], was, Scaled(k, was), lo, lo + 16 * i)
    {
      AdvanceScale(buf, k, was, lo, lo + 16 * i, 16);
    }
    var base := lo + 16 * chunks;
    ghost var now := buf[..];
    ScaleRest(k, was, now, lo, base);
    ScalarMulScale(buf, k, base, hi);
    Chain(was, now, buf[..], Scaled(k, was), Scaled(k, now), lo, base, hi);
  }

  method UnrolledMulScale<T>(buf: array<T>, k: Kernel<T>)
    modifies buf
    ensures buf[..] == Scaled(k, old(buf[..]))
  {
    ghost var was := buf[..];
    var unrolled := buf.Length / 64;
    for i := 0 to unrolled
      invariant Replaced(buf[..], was, Scaled(k, was), 0, 64 * i)
    {
      AdvanceScale(buf, k, was, 0, 64 * i, 32);
      AdvanceScale(buf, k, was, 0, 64 * i + 32, 32);
    }
    var base := 64 * unrolled;
    ghost var now := buf[..];
    ScaleRest(k, was, now, 0, base);
    ChunkMulScale(buf, k, base, buf.Length);
    Chain(was, now, buf[..], Scaled(k, was), Scaled(k, now), 0, base, buf.Length);
  }

  method MulScaleRaw<T>(buf: array<T>, k: Kernel<T>, dispatch: Dispatch)
    modifies buf
    ensures buf[..] == Scaled(k, old(buf[..]))
  {
    match dispatch
    case Avx2 => UnrolledMulScale(buf, k);
    case Ssse3 => ChunkMulScale(buf, k, 0, buf.Length);
    case Neon => ChunkMulScale(buf, k, 0, buf.Length);
    case Scalar => ScalarMulScale(buf, k, 0, buf.Length);
  }
}
