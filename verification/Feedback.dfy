// Feedback packets: the bit vector of acknowledgements and its bytes on the wire.

module Feedback {
  import opened Bytes
  import opened Fields
  import opened Words

  datatype FeedbackPacket = FeedbackPacket(nbMissing: nat, nbUnused: nat, firstSrcId: nat, plr: Byte, sack: seq<Byte>)

  // ---------------------------------------------------------------- queries

  // Most significant bit first.
  predicate IsAcked(sack: seq<Byte>, first: nat, id: nat) {
    id >= first && (id - first) / 8 < |sack| && BitAt(sack[(id - first) / 8], 7 - (id - first) % 8)
  }

  function BitIds(b: Byte, base: nat, bit: nat): (ids: seq<nat>)
    requires bit <= 8
    ensures forall id :: id in ids <==> base + bit <= id < base + 8 && BitAt(b, 7 - (id - base))
    decreases 8 - bit
  {
    if bit == 8 then [] else (if BitAt(b, 7 - bit) then [base + bit] else []) + BitIds(b, base, bit + 1)
  }

  function AckedIds(sack: seq<Byte>, base: nat): seq<nat> {
    if sack == [] then [] else BitIds(sack[0], base, 0) + AckedIds(sack[1..], base + 8)
  }

  // The iterator visits exactly the ids the query answers yes to.
  lemma {:induction false} AckedIdsAre(sack: seq<Byte>, base: nat, id: nat)
    ensures id in AckedIds(sack, base) <==> IsAcked(sack, base, id)
  {
    if sack != [] {
      AckedIdsAre(sack[1..], base + 8, id);
      FirstByte(sack, base, id);
    }
  }

  lemma FirstByte(sack: seq<Byte>, base: nat, id: nat)
    requires sack != []
    ensures IsAcked(sack, base, id) <==> id in BitIds(sack[0], base, 0) || IsAcked(sack[1..], base + 8, id)
  {
    if base + 8 <= id {
      NextByte(id - base);
    } else if base <= id {
      assert (id - base) / 8 == 0 && (id - base) % 8 == id - base;
    }
  }

  lemma NextByte(offset: nat)
    requires offset >= 8
    ensures offset / 8 == (offset - 8) / 8 + 1 && offset % 8 == (offset - 8) % 8
  {
  }

  // ---------------------------------------------------------------- building the vector

  lemma InRange(first: nat, id: nat, last: nat)
    requires id <= last && first <= last
    ensures first <= id ==> (id - first) / 8 < (last - first) / 8 + 1
  {
  }

  function SetBit(b: Byte, i: nat): (r: Byte)
    requires i < 8
    ensures forall j: nat :: j < 8 ==> BitAt(r, j) == (BitAt(b, j) || j == i)
  {
    match i
    case 0 => b.(b0 := true)
    case 1 => b.(b1 := true)
    case 2 => b.(b2 := true)
    case 3 => b.(b3 := true)
    case 4 => b.(b4 := true)
    case 5 => b.(b5 := true)
    case 6 => b.(b6 := true)
    case _ => b.(b7 := true)
  }

  function Max(ids: seq<nat>): (m: nat)
    requires ids != []
    ensures m in ids && forall id :: id in ids ==> id <= m
  {
    if |ids| == 1 then ids[0]
    else
      var m := Max(ids[..|ids| - 1]);
      assert forall id :: id in ids <==> id in ids[..|ids| - 1] || id == ids[|ids| - 1];
      if m < ids[|ids| - 1] then ids[|ids| - 1] else m
  }

  function Length(first: nat, ids: seq<nat>): nat {
    if ids == [] || Max(ids) < first then 0 else (Max(ids) - first) / 8 + 1
  }

  // The vector has the bits of the first n ids.
  ghost predicate Marks(sack: seq<Byte>, first: nat, ids: seq<nat>, n: nat)
    requires n <= |ids|
  {
    forall id: nat :: IsAcked(sack, first, id) <==> first <= id && id in ids[..n]
  }

  function SetAt(sack: seq<Byte>, offset: nat): seq<Byte>
    requires offset / 8 < |sack|
  {
    sack[offset / 8 := SetBit(sack[offset / 8], 7 - offset % 8)]
  }

  lemma MarkOne(sack: seq<Byte>, first: nat, id: nat, j: nat)
    requires first <= id && (id - first) / 8 < |sack|
    ensures IsAcked(SetAt(sack, id - first), first, j) <==> IsAcked(sack, first, j) || j == id
  {
    var k := (id - first) / 8;
    if j >= first && (j - first) / 8 == k {
      var b, i := 7 - (j - first) % 8, 7 - (id - first) % 8;
      assert BitAt(SetBit(sack[k], i), b) == (BitAt(sack[k], b) || b == i);
      assert j == first + 8 * k + (j - first) % 8 && id == first + 8 * k + (id - first) % 8;
    }
  }

  method MarkIn(sack: array<Byte>, first: nat, ids: seq<nat>, n: nat)
    requires n < |ids| && Marks(sack[..], first, ids, n)
    requires ids[n] >= first ==> (ids[n] - first) / 8 < sack.Length
    modifies sack
    ensures Marks(sack[..], first, ids, n + 1)
  {
    var id := ids[n];
    assert forall j :: j in ids[..n + 1] <==> j in ids[..n] || j == id;
    if id >= first {
      var offset := id - first;
      var k := offset / 8;
      ghost var was := sack[..];
      sack[k] := SetBit(sack[k], 7 - offset % 8);
      assert sack[..] == SetAt(was, offset);
      forall j: nat ensures IsAcked(sack[..], first, j) <==> IsAcked(was, first, j) || j == id {
        MarkOne(was, first, id, j);
      }
    }
  }

  // The byte of the ids from `base` on.
  function SackByte(ids: seq<nat>, base: nat): Byte {
    Byte(base in ids, base + 1 in ids, base + 2 in ids, base + 3 in ids,
         base + 4 in ids, base + 5 in ids, base + 6 in ids, base + 7 in ids)
  }

  // The vector for a list of ids: long enough for the largest, a bit for each from `first` on.
  function SackOf(first: nat, ids: seq<nat>): (s: seq<Byte>)
    ensures |s| == Length(first, ids)
  {
    seq(Length(first, ids), k requires 0 <= k => SackByte(ids, first + 8 * k))
  }

  lemma SackByteAt(ids: seq<nat>, base: nat, j: nat)
    requires j < 8
    ensures BitAt(SackByte(ids, base), 7 - j) <==> base + j in ids
  {
  }

  lemma SackOfAcks(first: nat, ids: seq<nat>, id: nat)
    ensures IsAcked(SackOf(first, ids), first, id) <==> first <= id && id in ids
  {
    if first <= id {
      var k, j := (id - first) / 8, (id - first) % 8;
      assert id == first + 8 * k + j;
      if id in ids {
        InRange(first, id, Max(ids));
      }
      SackByteAt(ids, first + 8 * k, j);
    }
  }

  ghost predicate AcksJust(sack: seq<Byte>, first: nat, ids: seq<nat>, id: nat) {
    IsAcked(sack, first, id) <==> first <= id && id in ids
  }

  // The bits determine the bytes.
  lemma SackUnique(sack: seq<Byte>, first: nat, ids: seq<nat>)
    requires |sack| == Length(first, ids)
    requires forall id: nat {:trigger AcksJust(sack, first, ids, id)} :: AcksJust(sack, first, ids, id)
    ensures sack == SackOf(first, ids)
  {
    var s := SackOf(first, ids);
    forall k | 0 <= k < |sack| ensures sack[k] == s[k] {
      ByteOf(sack, first, ids, k);
    }
  }

  ghost predicate BitMatches(b: Byte, ids: seq<nat>, base: nat, j: nat)
    requires j < 8
  {
    BitAt(b, 7 - j) <==> base + j in ids
  }

  lemma ByteOf(sack: seq<Byte>, first: nat, ids: seq<nat>, k: nat)
    requires k < |sack|
    requires forall id: nat {:trigger AcksJust(sack, first, ids, id)} :: AcksJust(sack, first, ids, id)
    ensures sack[k] == SackByte(ids, first + 8 * k)
  {
    var base := first + 8 * k;
    forall j: nat | j < 8 ensures BitMatches(sack[k], ids, base, j) {
      BitOf(sack, first, k, j);
      assert AcksJust(sack, first, ids, base + j);
    }
    ByteUnique(sack[k], ids, base);
  }

  lemma ByteUnique(b: Byte, ids: seq<nat>, base: nat)
    requires forall j: nat :: j < 8 ==> BitMatches(b, ids, base, j)
    ensures b == SackByte(ids, base)
  {
    assert BitMatches(b, ids, base, 0) && BitMatches(b, ids, base, 1) && BitMatches(b, ids, base, 2);
    assert BitMatches(b, ids, base, 3) && BitMatches(b, ids, base, 4) && BitMatches(b, ids, base, 5);
    assert BitMatches(b, ids, base, 6) && BitMatches(b, ids, base, 7);
  }

  lemma BitOf(sack: seq<Byte>, first: nat, k: nat, j: nat)
    requires k < |sack| && j < 8
    ensures IsAcked(sack, first, first + 8 * k + j) == BitAt(sack[k], 7 - j)
  {
    assert (8 * k + j) / 8 == k && (8 * k + j) % 8 == j;
  }

  // build_sack: just long enough for the largest id, a bit for every id at or above `first`.
  method BuildSack(first: nat, ids: seq<nat>) returns (sack: seq<Byte>)
    ensures sack == SackOf(first, ids)
  {
    if ids == [] {
      return [];
    }
    var last := Max(ids);
    if last < first {
      return [];
    }
    var a := new Byte[(last - first) / 8 + 1](_ => ZERO);
    for n := 0 to |ids|
      invariant Marks(a[..], first, ids, n)
    {
      assert ids[n] in ids;
      InRange(first, ids[n], last);
      MarkIn(a, first, ids, n);
    }
    assert ids[..|ids|] == ids;
    sack := a[..];
    forall id: nat ensures AcksJust(sack, first, ids, id) {
    }
    SackUnique(sack, first, ids);
  }

  // ---------------------------------------------------------------- the wire

  // The packet after its common header.  The length of the vector takes one byte.
  function Serialise(p: FeedbackPacket): seq<Byte> {
    Be32(p.nbMissing) + Be32(p.nbUnused) + Be32(p.firstSrcId)
    + [p.plr, Octet(|p.sack|), ZERO, ZERO] + p.sack + Padding(|p.sack|)
  }

  function Parse(buf: seq<Byte>): Option<FeedbackPacket> {
    if |buf| < 16 || |buf| < 16 + ToNat(buf[13]) then None
    else Some(FeedbackPacket(ReadBe(buf[0..4]), ReadBe(buf[4..8]), ReadBe(buf[8..12]), buf[12],
                             buf[16..16 + ToNat(buf[13])]))
  }

  // What the wire makes of a packet.
  function Truncated(p: FeedbackPacket): FeedbackPacket {
    p.(sack := p.sack[..|p.sack| % 256])
  }

  ghost predicate Fits32(p: FeedbackPacket) {
    p.nbMissing < 0x1_0000_0000 && p.nbUnused < 0x1_0000_0000 && p.firstSrcId < 0x1_0000_0000
  }

  lemma SerialiseParts(p: FeedbackPacket)
    ensures var b := Serialise(p);
            && |b| >= 16 + |p.sack|
            && b[0..4] == Be32(p.nbMissing) && b[4..8] == Be32(p.nbUnused) && b[8..12] == Be32(p.firstSrcId)
            && b[12] == p.plr && b[13] == Octet(|p.sack|)
            && b[16..16 + |p.sack|] == p.sack
  {
  }

  lemma ParseParts(p: FeedbackPacket, b: seq<Byte>, len: nat)
    requires |b| >= 16 + |p.sack| && len <= |p.sack| && ToNat(b[13]) == len
    requires ReadBe(b[0..4]) == p.nbMissing && ReadBe(b[4..8]) == p.nbUnused && ReadBe(b[8..12]) == p.firstSrcId
    requires b[12] == p.plr && b[16..16 + |p.sack|] == p.sack
    ensures Parse(b) == Some(p.(sack := p.sack[..len]))
  {
    assert b[16..16 + len] == b[16..16 + |p.sack|][..len];
  }

  // Round trip up to the length byte.
  lemma ParseSerialise(p: FeedbackPacket)
    requires Fits32(p)
    ensures Parse(Serialise(p)) == Some(Truncated(p))
  {
    SerialiseParts(p);
    Be32RoundTrip(p.nbMissing);
    Be32RoundTrip(p.nbUnused);
    Be32RoundTrip(p.firstSrcId);
    ParseParts(p, Serialise(p), |p.sack| % 256);
  }

  // With ParseSerialise: a packet survives the wire exactly when its vector has fewer than 256 bytes.
  lemma TruncatedIsWhole(p: FeedbackPacket)
    ensures Truncated(p) == p <==> |p.sack| < 256
  {
    if |p.sack| < 256 {
      assert p.sack[..|p.sack|] == p.sack;
    } else {
      assert |Truncated(p).sack| < 256;
    }
  }

  // Truncation loses acknowledgements but never makes one up.
  lemma TruncatedAcks(p: FeedbackPacket, id: nat)
    requires IsAcked(Truncated(p).sack, p.firstSrcId, id)
    ensures IsAcked(p.sack, p.firstSrcId, id)
  {
    assert Truncated(p).sack[(id - p.firstSrcId) / 8] == p.sack[(id - p.firstSrcId) / 8];
  }
}
