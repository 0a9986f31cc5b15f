// Encoding vectors on the wire.

module VectorWire {
  import opened Bytes
  import opened Words
  import opened Keys
  import opened IdStorage
  import Fields

  datatype FieldKind = Gf16 | Gf256

  // An empty list of coefficients stands for the Vandermonde ones.
  datatype WireVector = WireVector(
    field: FieldKind, codedId: nat, generation: Byte, format: Format, ids: seq<nat>, coefs: seq<Byte>)

  datatype ParseError =
    BufferTooShort | EncodingVectorOverflow | MalformedEncodingVector | CoefficientFieldInconsistency

  datatype ParseResult = Ok(ev: WireVector, consumed: nat) | Err(error: ParseError)

  // ---------------------------------------------------------------- nibbles

  function Wide(n: Nibble): Byte {
    Pack(NIBBLE_ZERO, n)
  }

  function SecondNibble(coefs: seq<Byte>, k: nat): Nibble {
    if k < |coefs| then Low(coefs[k]) else NIBBLE_ZERO
  }

  function Packed(coefs: seq<Byte>): (r: seq<Byte>)
    ensures |r| == (|coefs| + 1) / 2
  {
    seq((|coefs| + 1) / 2, k requires 0 <= k < (|coefs| + 1) / 2 =>
      Pack(Low(coefs[2 * k]), SecondNibble(coefs, 2 * k + 1)))
  }

  method PackNibbles(coefs: seq<Byte>) returns (out: seq<Byte>)
    ensures out == Packed(coefs)
  {
    out := [];
    for k := 0 to (|coefs| + 1) / 2
      invariant out == Packed(coefs)[..k]
    {
      var hi := Low(coefs[2 * k]);
      var lo := if 2 * k + 1 < |coefs| then Low(coefs[2 * k + 1]) else NIBBLE_ZERO;
      out := out + [Pack(hi, lo)];
    }
  }

  function NibbleAt(bytes: seq<Byte>, k: nat): Nibble
    requires k / 2 < |bytes|
  {
    if k % 2 == 0 then High(bytes[k / 2]) else Low(bytes[k / 2])
  }

  function Unpacked(bytes: seq<Byte>, count: nat): (r: seq<Byte>)
    requires count <= 2 * |bytes|
    ensures |r| == count
  {
    seq(count, k requires 0 <= k < count => Wide(NibbleAt(bytes, k)))
  }

  method UnpackNibbles(bytes: seq<Byte>, count: nat) returns (out: seq<Byte>)
    requires |bytes| == (count + 1) / 2
    ensures out == Unpacked(bytes, count)
  {
    out := [];
    for i := 0 to |bytes|
      invariant |out| == if 2 * i <= count then 2 * i else count
      invariant out == Unpacked(bytes, count)[..|out|]
    {
      ghost var all := Unpacked(bytes, count);
      assert all[2 * i] == Wide(NibbleAt(bytes, 2 * i)) == Wide(High(bytes[i]));
      out := out + [Wide(High(bytes[i]))];
      if |out| < count {
        assert all[2 * i + 1] == Wide(NibbleAt(bytes, 2 * i + 1)) == Wide(Low(bytes[i]));
        out := out + [Wide(Low(bytes[i]))];
      }
    }
  }

  ghost predicate AreNibbles(coefs: seq<Byte>) {
    forall k :: 0 <= k < |coefs| ==> coefs[k] == Wide(Low(coefs[k]))
  }

  // Packing loses nothing, for an odd number of coefficients as for an even one.
  lemma NibbleRoundTrip(coefs: seq<Byte>)
    requires AreNibbles(coefs)
    ensures Unpacked(Packed(coefs), |coefs|) == coefs
  {
    var p := Packed(coefs);
    forall k | 0 <= k < |coefs| ensures Wide(NibbleAt(p, k)) == coefs[k] {
      PackedAt(coefs, k);
    }
  }

  lemma PackedAt(coefs: seq<Byte>, k: nat)
    requires k < |coefs|
    ensures NibbleAt(Packed(coefs), k) == Low(coefs[k])
  {
    var j := k / 2;
    assert k == 2 * j + k % 2;
  }

  // ---------------------------------------------------------------- layout

  function Flags(ev: WireVector): Byte {
    Byte(false, false, false, ev.field == Gf256,
         ev.format == CompressedList || ev.format == CompressedEdges,
         ev.format == UncompressedEdges || ev.format == CompressedEdges,
         ev.coefs != [], ev.generation != ZERO)
  }

  function FormatOf(flags: Byte): Format {
    if flags.b3 then (if flags.b2 then CompressedEdges else CompressedList)
    else if flags.b2 then UncompressedEdges else Implicit
  }

  function First(ev: WireVector): nat {
    if ev.ids == [] then 0 else ev.ids[0]
  }

  function CoefBytes(ev: WireVector): seq<Byte> {
    match ev.field
    case Gf256 => ev.coefs
    case Gf16 => Packed(ev.coefs)
  }

  function GenerationBlock(ev: WireVector): seq<Byte> {
    if ev.generation != ZERO then [ev.generation, ZERO, ZERO, ZERO] else []
  }

  // After the four header bytes; idBits is the list of ids in its format.
  function Body(ev: WireVector, idBits: seq<Byte>, coefs: seq<Byte>): (r: seq<Byte>)
    ensures |r| % 4 == 0
  {
    Be32(First(ev)) + GenerationBlock(ev) + (idBits + Padding(|idBits|)) + (coefs + Padding(|coefs|))
  }

  function Framed(ev: WireVector, body: seq<Byte>): seq<Byte> {
    Head(ev, |body| + 4) + body
  }

  function Head(ev: WireVector, n: nat): (r: seq<Byte>)
    ensures |r| == 4
  {
    [Octet(n / 4), Flags(ev), Octet(|ev.ids|), Octet(|ev.coefs|)]
  }

  function Layout(ev: WireVector, idBits: seq<Byte>): (r: seq<Byte>)
    ensures |r| % 4 == 0 && |r| >= 4
  {
    Framed(ev, Body(ev, idBits, CoefBytes(ev)))
  }

  method Assemble(ev: WireVector, idBits: seq<Byte>) returns (out: seq<Byte>)
    ensures out == Layout(ev, idBits)
  {
    var coefs;
    match ev.field {
      case Gf256 => coefs := ev.coefs;
      case Gf16 => coefs := PackNibbles(ev.coefs);
    }
    out := Framed(ev, Body(ev, idBits, coefs));
  }

  method Serialise(ev: WireVector) returns (out: seq<Byte>, ghost idBits: seq<Byte>)
    requires ev.ids != [] && Ordered(ev.ids, ev.format) && Below32(ev.ids)
    ensures Encodes(idBits, ev.ids, ev.format) && out == Layout(ev, idBits)
  {
    var bits := Encode(ev.ids, ev.format);
    idBits := bits;
    out := Assemble(ev, bits);
  }

  // ---------------------------------------------------------------- parsing

  function Pad32(n: nat): nat {
    n + (4 - n % 4) % 4
  }

  // The coefficients from byte `off` on.
  function ReadCoefs(buf: seq<Byte>, field: FieldKind, off: nat, n: nat): Fields.Option<seq<Byte>> {
    var needed := if field == Gf256 then n else (n + 1) / 2;
    if |buf| < off + needed then Fields.None
    else if field == Gf256 then Fields.Some(buf[off..off + n])
    else Fields.Some(Unpacked(buf[off..off + needed], n))
  }

  method TakeCoefs(buf: seq<Byte>, field: FieldKind, off: nat, n: nat) returns (r: Fields.Option<seq<Byte>>)
    ensures r == ReadCoefs(buf, field, off, n)
  {
    var needed := if field == Gf256 then n else (n + 1) / 2;
    if |buf| < off + needed {
      return Fields.None;
    }
    match field {
      case Gf256 => r := Fields.Some(buf[off..off + n]);
      case Gf16 =>
        var coefs := UnpackNibbles(buf[off..off + needed], n);
        r := Fields.Some(coefs);
    }
  }

  // The eight or twelve bytes before the list; the length in bytes.
  datatype Header = Header(length: nat, flags: Byte, nbIds: nat, nbCoefs: nat, first: nat, generation: Byte)

  function HeaderOf(buf: seq<Byte>): Header
    requires |buf| >= 8 && (buf[1].b0 ==> |buf| >= 12)
  {
    Header(4 * ToNat(buf[0]), buf[1], ToNat(buf[2]), ToNat(buf[3]), ReadBe(buf[4..8]),
           if buf[1].b0 then buf[8] else ZERO)
  }

  // A way to decode a list of ids: bytes, how many ids, the first, the format.
  type ListDecoder = (seq<Byte>, nat, nat, Format) -> Fields.Option<(seq<nat>, nat)>

  ghost function IdDecoder(): ListDecoder {
    (buf, n, first, format) => Decoded(buf, n, first, format)
  }

  // Checks in the order of the source.  A list that would start beyond the vector's end, where the
  // source's slice panics, is malformed here.
  ghost function Parsing(decode: ListDecoder, buf: seq<Byte>, codedId: nat): ParseResult {
    if |buf| < 8 then Err(BufferTooShort)
    else if |buf| < 4 * ToNat(buf[0]) then Err(EncodingVectorOverflow)
    else if buf[1].b7 || buf[1].b6 || buf[1].b5 then Err(MalformedEncodingVector)
    else if !buf[1].b1 && ToNat(buf[3]) != 0 then Err(CoefficientFieldInconsistency)
    else if buf[1].b1 && ToNat(buf[3]) != ToNat(buf[2]) then Err(CoefficientFieldInconsistency)
    else if buf[1].b0 && |buf| < 12 then Err(BufferTooShort)
    else ParsingBody(decode, buf, codedId, HeaderOf(buf))
  }

  ghost function ParsingBody(decode: ListDecoder, buf: seq<Byte>, codedId: nat, h: Header): ParseResult
    requires h.length <= |buf|
  {
    var field, off, format := if h.flags.b4 then Gf256 else Gf16, if h.flags.b0 then 12 else 8, FormatOf(h.flags);
    if h.length < off then Err(MalformedEncodingVector)
    else
      match decode(buf[off..h.length], h.nbIds, h.first, format)
      case None => Err(MalformedEncodingVector)
      case Some(pair) =>
        if !h.flags.b1 then Ok(WireVector(field, codedId, h.generation, format, pair.0, []), h.length)
        else
          match ReadCoefs(buf, field, off + Pad32(pair.1), h.nbCoefs)
          case None => Err(BufferTooShort)
          case Some(coefs) => Ok(WireVector(field, codedId, h.generation, format, pair.0, coefs), h.length)
  }

  method Parse(buf: seq<Byte>, codedId: nat) returns (r: ParseResult)
    ensures r == Parsing(IdDecoder(), buf, codedId)
  {
    if |buf| < 8 {
      return Err(BufferTooShort);
    }
    if |buf| < 4 * ToNat(buf[0]) {
      return Err(EncodingVectorOverflow);
    }
    var flags := buf[1];
    if flags.b7 || flags.b6 || flags.b5 {
      return Err(MalformedEncodingVector);
    }
    var nbIds, nbCoefs := ToNat(buf[2]), ToNat(buf[3]);
    if !flags.b1 && nbCoefs != 0 {
      return Err(CoefficientFieldInconsistency);
    }
    if flags.b1 && nbCoefs != nbIds {
      return Err(CoefficientFieldInconsistency);
    }
    if flags.b0 && |buf| < 12 {
      return Err(BufferTooShort);
    }
    r := ParseBody(buf, codedId, HeaderOf(buf), IdDecoder());
  }

  method DecodeIds(
    buf: seq<Byte>, h: Header, format: Format, ghost decode: ListDecoder) returns (r: Fields.Option<(seq<nat>, nat)>)
    requires decode == IdDecoder()
    ensures r == decode(buf, h.nbIds, h.first, format)
  {
    r := Decode(buf, h.nbIds, h.first, format);
  }

  method ParseBody(buf: seq<Byte>, codedId: nat, h: Header, ghost decode: ListDecoder) returns (r: ParseResult)
    requires h.length <= |buf| && decode == IdDecoder()
    ensures r == ParsingBody(decode, buf, codedId, h)
  {
    var field, off, format := if h.flags.b4 then Gf256 else Gf16, if h.flags.b0 then 12 else 8, FormatOf(h.flags);
    if h.length < off {
      return Err(MalformedEncodingVector);
    }
    var ids := DecodeIds(buf[off..h.length], h, format, decode);
    if ids.None? {
      return Err(MalformedEncodingVector);
    }
    if !h.flags.b1 {
      return Ok(WireVector(field, codedId, h.generation, format, ids.value.0, []), h.length);
    }
    var coefs := TakeCoefs(buf, field, off + Pad32(ids.value.1), h.nbCoefs);
    if coefs.None? {
      return Err(BufferTooShort);
    }
    r := Ok(WireVector(field, codedId, h.generation, format, ids.value.0, coefs.value), h.length);
  }

  // ---------------------------------------------------------------- round trip

  // What an encoder has to send: any number of ids, in any order, any distance between them.
  ghost predicate Drafted(ev: WireVector) {
    && ev.ids != [] && Below32(ev.ids) && ev.format == BestFor(ev.ids)
    && (ev.coefs == [] || |ev.coefs| == |ev.ids|)
    && (ev.field == Gf16 ==> AreNibbles(ev.coefs))
  }

  // What one length byte can count, and steps of 16 bits can reach.
  ghost predicate Sendable(ev: WireVector) {
    Drafted(ev) && |ev.ids| <= 255 && SmallDeltas(ev.ids)
  }

  function BodyOffset(ev: WireVector): nat {
    if ev.generation != ZERO then 12 else 8
  }

  lemma PadLength(n: nat)
    ensures n + |Padding(n)| == Pad32(n)
  {
  }

  // Where the parts of a concatenation are.
  lemma Slices(head: seq<Byte>, first: seq<Byte>, gen: seq<Byte>, ids: seq<Byte>, pad: seq<Byte>,
               coefs: seq<Byte>, pad': seq<Byte>, rest: seq<Byte>)
    requires |head| == |first| == 4
    ensures var b := head + (first + gen + (ids + pad) + (coefs + pad')) + rest;
            var off, n := 8 + |gen|, 8 + |gen| + |ids| + |pad| + |coefs| + |pad'|;
            && b[..4] == head && b[4..8] == first && b[8..off] == gen
            && b[off..n] == ids + (pad + coefs + pad')
            && b[off + |ids| + |pad|..off + |ids| + |pad| + |coefs|] == coefs
  {
  }

  lemma LayoutIs(ev: WireVector, idBits: seq<Byte>)
    ensures var n, coefs := |Layout(ev, idBits)|, CoefBytes(ev);
            && n == BodyOffset(ev) + Pad32(|idBits|) + Pad32(|coefs|)
            && Layout(ev, idBits) == Head(ev, n) + (Be32(First(ev)) + GenerationBlock(ev)
                                     + (idBits + Padding(|idBits|)) + (coefs + Padding(|coefs|)))
  {
    PadLength(|idBits|);
    PadLength(|CoefBytes(ev)|);
  }

  // Bytes that hold the parts of ev and its list, n in all.
  ghost predicate HasParts(b: seq<Byte>, ev: WireVector, idBits: seq<Byte>, n: nat) {
    var off, coefs := BodyOffset(ev), CoefBytes(ev);
    && off + Pad32(|idBits|) + |coefs| <= n <= |b| && n % 4 == 0
    && b[..4] == Head(ev, n) && b[4..8] == Be32(First(ev)) && (ev.generation != ZERO ==> b[8] == ev.generation)
    && idBits <= b[off..n]
    && b[off + Pad32(|idBits|)..off + Pad32(|idBits|) + |coefs|] == coefs
  }

  lemma LayoutParts(ev: WireVector, idBits: seq<Byte>, rest: seq<Byte>)
    ensures HasParts(Layout(ev, idBits) + rest, ev, idBits, |Layout(ev, idBits)|)
  {
    var n, coefs := |Layout(ev, idBits)|, CoefBytes(ev);
    LayoutIs(ev, idBits);
    PadLength(|idBits|);
    PadLength(|coefs|);
    var gen := GenerationBlock(ev);
    Slices(Head(ev, n), Be32(First(ev)), gen, idBits, Padding(|idBits|), coefs, Padding(|coefs|), rest);
    var b := Layout(ev, idBits) + rest;
    assert gen != [] ==> b[8] == b[8..8 + |gen|][0];
  }

  lemma CountByte(k: nat)
    ensures ToNat(Octet(k)) == k % 256
    ensures k < 256 ==> ToNat(Octet(k)) == k
  {
  }

  lemma Quarter(n: nat)
    requires n % 4 == 0
    ensures 4 * (n / 4) == n
  {
  }

  // The byte that counts words gives back the number of bytes.
  lemma LengthByte(b: Byte, n: nat)
    requires n % 4 == 0 && n / 4 < 256 && b == Octet(n / 4)
    ensures 4 * ToNat(b) == n
  {
    CountByte(n / 4);
    Quarter(n);
  }

  lemma FlagsBack(ev: WireVector)
    ensures var f := Flags(ev);
            && !f.b7 && !f.b6 && !f.b5 && f.b4 == (ev.field == Gf256) && FormatOf(f) == ev.format
            && f.b1 == (ev.coefs != []) && f.b0 == (ev.generation != ZERO)
  {
  }

  // The header that the layout of ev has, with this count of ids.
  ghost function HeaderFor(ev: WireVector, n: nat, nbIds: nat): Header {
    Header(n, Flags(ev), nbIds, |ev.coefs|, First(ev), ev.generation)
  }

  lemma PartsHeader(b: seq<Byte>, ev: WireVector, idBits: seq<Byte>, n: nat)
    requires HasParts(b, ev, idBits, n) && n / 4 < 256 && First(ev) < 0x1_0000_0000 && |ev.coefs| < 256
    ensures |b| >= BodyOffset(ev) && b[1] == Flags(ev) && b[1].b0 == (ev.generation != ZERO)
    ensures HeaderOf(b) == HeaderFor(ev, n, |ev.ids| % 256)
  {
    var head := b[..4];
    assert b[0] == head[0] && b[1] == head[1] && b[2] == head[2] && b[3] == head[3];
    FlagsBack(ev);
    LengthByte(b[0], n);
    CountByte(|ev.ids|);
    CountByte(|ev.coefs|);
    Be32RoundTrip(First(ev));
  }

  lemma ParsesHeader(decode: ListDecoder, b: seq<Byte>, ev: WireVector, n: nat, nbIds: nat)
    requires BodyOffset(ev) <= |b| && n <= |b| && b[1] == Flags(ev) && b[1].b0 == (ev.generation != ZERO)
    requires HeaderOf(b) == HeaderFor(ev, n, nbIds) && (ev.coefs != [] ==> |ev.coefs| == nbIds)
    ensures Parsing(decode, b, ev.codedId) == ParsingBody(decode, b, ev.codedId, HeaderFor(ev, n, nbIds))
  {
    FlagsBack(ev);
  }

  // The list is read as `got`, whatever follows it.
  ghost predicate Listed(decode: ListDecoder, ev: WireVector, idBits: seq<Byte>, got: seq<nat>) {
    forall rest {:trigger idBits + rest} ::
      decode(idBits + rest, |ev.ids|, First(ev), ev.format) == Fields.Some((got, |idBits|))
  }

  lemma DraftedListed(ev: WireVector, idBits: seq<Byte>)
    requires Drafted(ev) && Encodes(idBits, ev.ids, ev.format)
    ensures Listed(IdDecoder(), ev, idBits, Summed(ev.ids))
  {
    if IsContiguous(ev.ids) {
      ContiguousIsNear(ev.ids);
      SummedWhole(ev.ids);
      RangeIsIds(ev.ids);
    }
    forall rest
      ensures Decoded(idBits + rest, |ev.ids|, First(ev), ev.format) == Fields.Some((Summed(ev.ids), |idBits|))
    {
      if ev.format == CompressedList {
        ListShows(idBits, rest, ev.ids);
        ListReads(WordsOf(idBits + rest), ev.ids);
      }
    }
  }

  lemma ReadsIds(
    decode: ListDecoder, b: seq<Byte>, ev: WireVector, idBits: seq<Byte>, n: nat, got: seq<nat>)
    requires Listed(decode, ev, idBits, got) && HasParts(b, ev, idBits, n)
    ensures decode(b[BodyOffset(ev)..n], |ev.ids|, First(ev), ev.format) == Fields.Some((got, |idBits|))
  {
    var list := b[BodyOffset(ev)..n];
    assert list == idBits + list[|idBits|..];
  }

  lemma ReadsCoefs(b: seq<Byte>, ev: WireVector, off: nat, coefs: seq<Byte>)
    requires ev.field == Gf16 ==> AreNibbles(ev.coefs)
    requires coefs == CoefBytes(ev) && off + |coefs| <= |b| && b[off..off + |coefs|] == coefs
    ensures ReadCoefs(b, ev.field, off, |ev.coefs|) == Fields.Some(ev.coefs)
  {
    if ev.field == Gf16 {
      NibbleRoundTrip(ev.coefs);
    }
  }

  lemma ParsesBody(decode: ListDecoder, b: seq<Byte>, ev: WireVector, n: nat, len: nat, got: seq<nat>)
    requires HasBody(decode, b, ev, len, n, got)
    ensures ParsingBody(decode, b, ev.codedId, HeaderFor(ev, n, |ev.ids|)) == Ok(ev.(ids := got), n)
  {
    FlagsBack(ev);
  }

  // The parser reaches the list with the header of ev.
  lemma ParsingStarts(decode: ListDecoder, b: seq<Byte>, ev: WireVector, idBits: seq<Byte>, n: nat)
    requires HasParts(b, ev, idBits, n) && n / 4 < 256 && First(ev) < 0x1_0000_0000 && |ev.coefs| < 256
    requires ev.coefs != [] ==> |ev.coefs| == |ev.ids| % 256
    ensures n <= |b|
    ensures Parsing(decode, b, ev.codedId) == ParsingBody(decode, b, ev.codedId, HeaderFor(ev, n, |ev.ids| % 256))
  {
    PartsHeader(b, ev, idBits, n);
    ParsesHeader(decode, b, ev, n, |ev.ids| % 256);
  }

  lemma CoefsThere(b: seq<Byte>, ev: WireVector, idBits: seq<Byte>, n: nat, off: nat, coefs: seq<Byte>)
    requires HasParts(b, ev, idBits, n) && off == BodyOffset(ev) + Pad32(|idBits|) && coefs == CoefBytes(ev)
    ensures off + |coefs| <= |b| && b[off..off + |coefs|] == coefs
  {
  }

  lemma PartsCoefs(b: seq<Byte>, ev: WireVector, idBits: seq<Byte>, n: nat, off: nat)
    requires ev.field == Gf16 ==> AreNibbles(ev.coefs)
    requires HasParts(b, ev, idBits, n) && off == BodyOffset(ev) + Pad32(|idBits|)
    ensures ReadCoefs(b, ev.field, off, |ev.coefs|) == Fields.Some(ev.coefs)
  {
    var coefs := CoefBytes(ev);
    CoefsThere(b, ev, idBits, n, off, coefs);
    ReadsCoefs(b, ev, off, coefs);
  }

  // The list and the coefficients are where the parser looks for them.
  ghost predicate HasBody(decode: ListDecoder, b: seq<Byte>, ev: WireVector, len: nat, n: nat, got: seq<nat>) {
    && BodyOffset(ev) <= n <= |b|
    && decode(b[BodyOffset(ev)..n], |ev.ids|, First(ev), ev.format) == Fields.Some((got, len))
    && ReadCoefs(b, ev.field, BodyOffset(ev) + Pad32(len), |ev.coefs|) == Fields.Some(ev.coefs)
  }

  lemma PartsBody(
    decode: ListDecoder, b: seq<Byte>, ev: WireVector, idBits: seq<Byte>, n: nat, got: seq<nat>)
    requires ev.field == Gf16 ==> AreNibbles(ev.coefs)
    requires Listed(decode, ev, idBits, got) && HasParts(b, ev, idBits, n)
    ensures HasBody(decode, b, ev, |idBits|, n, got)
  {
    ReadsIds(decode, b, ev, idBits, n, got);
    PartsCoefs(b, ev, idBits, n, BodyOffset(ev) + Pad32(|idBits|));
  }

  lemma Parses(decode: ListDecoder, b: seq<Byte>, ev: WireVector, n: nat, idBits: seq<Byte>, got: seq<nat>)
    requires 1 <= |ev.ids| <= 255 && (ev.coefs == [] || |ev.coefs| == |ev.ids|) && First(ev) < 0x1_0000_0000
    requires ev.field == Gf16 ==> AreNibbles(ev.coefs)
    requires Listed(decode, ev, idBits, got) && HasParts(b, ev, idBits, n) && n / 4 < 256
    ensures Parsing(decode, b, ev.codedId) == Ok(ev.(ids := got), n)
  {
    SmallRemainder(|ev.ids|, 256);
    ParsingStarts(decode, b, ev, idBits, n);
    PartsBody(decode, b, ev, idBits, n, got);
    ParsesBody(decode, b, ev, n, |idBits|, got);
  }

  // The length in words fits its byte.
  lemma VectorFits(ev: WireVector, idBits: seq<Byte>)
    requires |ev.coefs| <= 255 && |idBits| <= 508
    ensures |Layout(ev, idBits)| / 4 < 256
  {
    LayoutIs(ev, idBits);
  }

  lemma DraftedFits(ev: WireVector, idBits: seq<Byte>)
    requires Drafted(ev) && |ev.ids| <= 255 && Encodes(idBits, ev.ids, ev.format)
    ensures |idBits| <= 508 && First(ev) < 0x1_0000_0000 && |Layout(ev, idBits)| / 4 < 256
  {
    VectorFits(ev, idBits);
  }

  // What the parser reads of any vector with at most 255 ids: all of it, but for the ids, of which
  // it sums up the low halves of the deltas.
  lemma ReadsSummed(ev: WireVector, idBits: seq<Byte>, rest: seq<Byte>)
    requires Drafted(ev) && |ev.ids| <= 255 && Encodes(idBits, ev.ids, ev.format)
    ensures Parsing(IdDecoder(), Layout(ev, idBits) + rest, ev.codedId)
         == Ok(ev.(ids := Summed(ev.ids)), |Layout(ev, idBits)|)
  {
    DraftedFits(ev, idBits);
    DraftedListed(ev, idBits);
    LayoutParts(ev, idBits, rest);
    Parses(IdDecoder(), Layout(ev, idBits) + rest, ev, |Layout(ev, idBits)|, idBits, Summed(ev.ids));
  }

  // An encoding vector comes back as it was sent, and its length is known, whatever bytes follow it.
  lemma ParseSerialise(ev: WireVector, idBits: seq<Byte>, rest: seq<Byte>)
    requires Sendable(ev) && Encodes(idBits, ev.ids, ev.format)
    ensures Parsing(IdDecoder(), Layout(ev, idBits) + rest, ev.codedId) == Ok(ev, |Layout(ev, idBits)|)
  {
    ReadsSummed(ev, idBits, rest);
    SummedWhole(ev.ids);
  }

  // Without coefficients a range of ids comes back exactly when it has fewer than 256.
  lemma RangeRoundTrip(ev: WireVector)
    requires ev.ids != [] && IsContiguous(ev.ids) && ev.format == Implicit && ev.coefs == [] && ev.generation == ZERO
    requires ev.ids[0] < 0x1_0000_0000
    ensures Parsing(IdDecoder(), Layout(ev, []) + [], ev.codedId)
         == Ok(ev.(ids := Range(ev.ids[0], ev.ids[0] + |ev.ids| % 256)), 8)
    ensures ev.ids == Range(ev.ids[0], ev.ids[0] + |ev.ids| % 256) <==> |ev.ids| < 256
  {
    LayoutIs(ev, []);
    LayoutParts(ev, [], []);
    RangeParses(Layout(ev, []) + [], ev, |ev.ids| % 256);
    RangeIsIds(ev.ids);
  }

  lemma RangeParses(b: seq<Byte>, ev: WireVector, m: nat)
    requires HasParts(b, ev, [], 8) && m == |ev.ids| % 256
    requires ev.format == Implicit && ev.coefs == [] && ev.generation == ZERO && First(ev) < 0x1_0000_0000
    ensures Parsing(IdDecoder(), b, ev.codedId) == Ok(ev.(ids := Range(First(ev), First(ev) + m)), 8)
  {
    ParsingStarts(IdDecoder(), b, ev, [], 8);
    RangeBody(IdDecoder(), b, ev, m);
  }

  lemma RangeBody(decode: ListDecoder, b: seq<Byte>, ev: WireVector, m: nat)
    requires |b| >= 8 && ev.format == Implicit && ev.coefs == [] && ev.generation == ZERO
    requires decode(b[8..8], m, First(ev), Implicit) == Fields.Some((Range(First(ev), First(ev) + m), 0))
    ensures ParsingBody(decode, b, ev.codedId, HeaderFor(ev, 8, m))
         == Ok(ev.(ids := Range(First(ev), First(ev) + m)), 8)
  {
    FlagsBack(ev);
  }

  // ---------------------------------------------------------------- when a vector arrives whole

  // The parser never reports more ids than a byte counts.
  lemma ParsedCount(b: seq<Byte>, codedId: nat)
    ensures var r := Parsing(IdDecoder(), b, codedId); r.Ok? ==> |r.ev.ids| <= 255
  {
    var r := Parsing(IdDecoder(), b, codedId);
    if r.Ok? {
      var h := HeaderOf(b);
      ToNatBelow(b[2]);
      BodyCount(b, codedId, h);
    }
  }

  lemma BodyCount(b: seq<Byte>, codedId: nat, h: Header)
    requires h.length <= |b|
    ensures var r := ParsingBody(IdDecoder(), b, codedId, h); r.Ok? ==> |r.ev.ids| == h.nbIds
  {
    var off := if h.flags.b0 then 12 else 8;
    if off <= h.length {
      DecodedCount(b[off..h.length], h.nbIds, h.first, FormatOf(h.flags));
    }
  }

  // A vector comes out as it went in exactly when it has at most 255 ids, none of them before or
  // 65536 or more after its predecessor.
  lemma IntactIff(ev: WireVector, idBits: seq<Byte>, rest: seq<Byte>)
    requires Drafted(ev) && Encodes(idBits, ev.ids, ev.format)
    ensures var r := Parsing(IdDecoder(), Layout(ev, idBits) + rest, ev.codedId);
            && ((r.Ok? && r.ev == ev) <==> |ev.ids| <= 255 && SmallDeltas(ev.ids))
            && ((r.Ok? && r.ev.ids == ev.ids) <==> |ev.ids| <= 255 && SmallDeltas(ev.ids))
  {
    var b, n := Layout(ev, idBits) + rest, |Layout(ev, idBits)|;
    ParsedCount(b, ev.codedId);
    if |ev.ids| <= 255 {
      ReadsSummed(ev, idBits, rest);
      SummedWhole(ev.ids);
    }
  }

  // Sending and parsing a vector, with anything behind it: `sent` bytes are the vector's.
  method SendAndParse(ev: WireVector, rest: seq<Byte>) returns (sent: nat, r: ParseResult)
    requires Sendable(ev)
    ensures r == Ok(ev, sent) && sent % 4 == 0 && sent < 1024
  {
    var out, idBits := Serialise(ev);
    r := Parse(out + rest, ev.codedId);
    ParseSerialise(ev, idBits, rest);
    DraftedFits(ev, idBits);
    sent := |out|;
  }
}
