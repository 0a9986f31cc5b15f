// The four ways an encoding vector lists its source ids.

module IdStorage {
  import opened Bytes
  import opened Words
  import opened Keys
  import opened BitStreams
  import Fields

  // The source's None is Implicit here: a range needs no list.
  datatype Format = Implicit | UncompressedEdges | CompressedList | CompressedEdges

  // Neighbours are named by a predicate: a quantifier over i and i + 1 would feed itself.
  predicate Follows(ids: seq<nat>, i: nat)
    requires i + 1 < |ids|
  {
    ids[i + 1] == ids[i] + 1
  }

  predicate IsContiguous(ids: seq<nat>) {
    forall i {:trigger Follows(ids, i)} :: 0 <= i < |ids| - 1 ==> Follows(ids, i)
  }

  function BestFor(ids: seq<nat>): Format {
    if ids == [] || IsContiguous(ids) then Implicit else CompressedList
  }

  function Range(from: nat, to: nat): (r: seq<nat>)
    ensures |r| == if from <= to then to - from else 0
  {
    if from <= to then seq(to - from, k requires 0 <= k => from + k) else []
  }

  // ---------------------------------------------------------------- runs

  datatype Block = Block(start: nat, end: nat)

  // One more id: it extends the last block or starts a new one.
  function Joined(b: seq<Block>, id: nat): seq<Block> {
    if b != [] && b[|b| - 1].end == id then b[..|b| - 1] + [Block(b[|b| - 1].start, id + 1)]
    else b + [Block(id, id + 1)]
  }

  function ToBlocks(ids: seq<nat>): seq<Block> {
    if ids == [] then [] else Joined(ToBlocks(ids[..|ids| - 1]), ids[|ids| - 1])
  }

  ghost predicate Proper(b: seq<Block>) {
    forall i :: 0 <= i < |b| ==> b[i].start < b[i].end
  }

  function Flatten(b: seq<Block>): seq<nat> {
    if b == [] then [] else Flatten(b[..|b| - 1]) + Range(b[|b| - 1].start, b[|b| - 1].end)
  }

  ghost predicate Maximal(b: seq<Block>) {
    forall i {:trigger Broken(b, i)} :: 0 <= i < |b| - 1 ==> Broken(b, i)
  }

  ghost predicate Broken(b: seq<Block>, i: nat)
    requires i + 1 < |b|
  {
    b[i].end != b[i + 1].start
  }

  lemma FlattenJoined(b: seq<Block>, id: nat)
    requires Proper(b)
    ensures Flatten(Joined(b, id)) == Flatten(b) + [id]
  {
    var r := Joined(b, id);
    if b != [] && b[|b| - 1].end == id {
      var start := b[|b| - 1].start;
      assert r[..|b| - 1] == b[..|b| - 1];
      assert Range(start, id + 1) == Range(start, id) + [id];
    } else {
      assert r[..|b|] == b;
      assert Range(id, id + 1) == [id];
    }
  }

  lemma JoinedProper(b: seq<Block>, id: nat)
    requires Proper(b)
    ensures Proper(Joined(b, id))
  {
  }

  lemma {:induction false} BlocksProper(ids: seq<nat>)
    ensures Proper(ToBlocks(ids))
  {
    if ids != [] {
      BlocksProper(ids[..|ids| - 1]);
      JoinedProper(ToBlocks(ids[..|ids| - 1]), ids[|ids| - 1]);
    }
  }

  lemma NextFlattens(init: seq<nat>, b: seq<Block>, id: nat, ids: seq<nat>, r: seq<Block>)
    requires Proper(b) && Flatten(b) == init && ids == init + [id] && r == Joined(b, id)
    ensures Flatten(r) == ids
  {
    FlattenJoined(b, id);
  }

  lemma {:induction false} BlocksFlatten(ids: seq<nat>)
    ensures Flatten(ToBlocks(ids)) == ids
  {
    if ids != [] {
      var init, id := ids[..|ids| - 1], ids[|ids| - 1];
      BlocksFlatten(init);
      BlocksProper(init);
      NextFlattens(init, ToBlocks(init), id, ids, ToBlocks(ids));
    }
  }

  lemma MaximalJoined(b: seq<Block>, id: nat)
    requires Maximal(b)
    ensures Maximal(Joined(b, id))
  {
    var r := Joined(b, id);
    forall i | 0 <= i < |r| - 1 ensures Broken(r, i) {
      assert i < |b| - 1 ==> Broken(b, i);
    }
  }

  lemma {:induction false} BlocksMaximal(ids: seq<nat>)
    ensures Maximal(ToBlocks(ids))
  {
    if ids != [] {
      BlocksMaximal(ids[..|ids| - 1]);
      MaximalJoined(ToBlocks(ids[..|ids| - 1]), ids[|ids| - 1]);
    }
  }

  // The blocks are the ids cut into runs, and no two neighbours could be one run.
  lemma BlocksPartition(ids: seq<nat>)
    ensures Flatten(ToBlocks(ids)) == ids && Maximal(ToBlocks(ids))
  {
    BlocksFlatten(ids);
    BlocksMaximal(ids);
  }

  lemma ToBlocksStep(ids: seq<nat>, i: nat)
    requires i < |ids|
    ensures ToBlocks(ids[..i + 1]) == Joined(ToBlocks(ids[..i]), ids[i])
  {
    assert ids[..i + 1][..i] == ids[..i];
  }

  // The blocks closed so far, and the run under way from start to prev.
  lemma JoinedRun(blocks: seq<Block>, start: nat, prev: nat, id: nat)
    ensures Joined(blocks + [Block(start, prev + 1)], id)
         == (if id != prev + 1 then blocks + [Block(start, prev + 1)] else blocks)
            + [Block(if id != prev + 1 then id else start, id + 1)]
  {
  }

  ghost predicate Split(ids: seq<nat>, blocks: seq<Block>, start: nat, prev: nat) {
    ToBlocks(ids) == blocks + [Block(start, prev + 1)]
  }

  lemma SplitStep(ids: seq<nat>, i: nat, blocks: seq<Block>, start: nat, prev: nat)
    requires i < |ids| && Split(ids[..i], blocks, start, prev)
    ensures Split(ids[..i + 1], if ids[i] != prev + 1 then blocks + [Block(start, prev + 1)] else blocks,
                  if ids[i] != prev + 1 then ids[i] else start, ids[i])
  {
    ToBlocksStep(ids, i);
    JoinedRun(blocks, start, prev, ids[i]);
  }

  lemma SplitFirst(ids: seq<nat>)
    requires ids != []
    ensures Split(ids[..1], [], ids[0], ids[0])
  {
    ToBlocksStep(ids, 0);
  }

  method SplitBlocks(ids: seq<nat>) returns (blocks: seq<Block>)
    ensures blocks == ToBlocks(ids)
  {
    if ids == [] {
      return [];
    }
    blocks := [];
    var start, prev := ids[0], ids[0];
    SplitFirst(ids);
    for i := 1 to |ids|
      invariant Split(ids[..i], blocks, start, prev)
    {
      SplitStep(ids, i, blocks, start, prev);
      if ids[i] != prev + 1 {
        blocks := blocks + [Block(start, prev + 1)];
        start := ids[i];
      }
      prev := ids[i];
    }
    assert ids[..|ids|] == ids;
    blocks := blocks + [Block(start, prev + 1)];
  }

  // ---------------------------------------------------------------- 16-bit fields

  const WIDTH: nat := 16

  ghost function Chunk(bits: seq<bool>, k: nat): seq<bool>
    requires 16 * k + 16 <= |bits|
  {
    bits[16 * k..16 * k + 16]
  }

  // Field k of the buffer.
  ghost function Word(buf: seq<Byte>, k: nat): nat
    requires 16 * k + 16 <= 8 * |buf|
  {
    Number(Chunk(AllBits(buf), k))
  }

  // The bits start with these fields.
  ghost predicate Begins(bits: seq<bool>, values: seq<nat>) {
    && 16 * |values| <= |bits|
    && forall k {:trigger FieldIs(bits, values, k)} :: 0 <= k < |values| ==> FieldIs(bits, values, k)
  }

  ghost predicate FieldIs(bits: seq<bool>, values: seq<nat>, k: nat)
    requires k < |values| && 16 * k + 16 <= |bits|
  {
    Chunk(bits, k) == ValueBits(values[k], WIDTH)
  }

  lemma ChunkStays(bits: seq<bool>, more: seq<bool>, k: nat)
    requires 16 * k + 16 <= |bits|
    ensures Chunk(bits + more, k) == Chunk(bits, k)
  {
  }

  lemma BeginsStill(bits: seq<bool>, more: seq<bool>, values: seq<nat>)
    requires Begins(bits, values)
    ensures Begins(bits + more, values)
  {
    forall k | 0 <= k < |values| ensures FieldIs(bits + more, values, k) {
      assert FieldIs(bits, values, k);
      ChunkStays(bits, more, k);
    }
  }

  lemma AppendField(bits: seq<bool>, values: seq<nat>, v: nat)
    requires Begins(bits, values) && |bits| == 16 * |values|
    ensures Begins(bits + ValueBits(v, WIDTH), values + [v]) && |bits + ValueBits(v, WIDTH)| == 16 * |values + [v]|
  {
    var field := ValueBits(v, WIDTH);
    BeginsStill(bits, field, values);
    forall k | 0 <= k < |values + [v]| ensures FieldIs(bits + field, values + [v], k) {
      assert k < |values| ==> FieldIs(bits + field, values, k);
    }
  }

  lemma Pow2Of16()
    ensures Pow2(WIDTH) == 65536
  {
    assert Pow2(3) == 8;
    assert Pow2(6) == 64;
    assert Pow2(9) == 512;
    assert Pow2(12) == 4096;
    assert Pow2(15) == 32768;
  }

  lemma LowBits(v: nat)
    ensures v % Pow2(WIDTH) == v % 65536
  {
    Pow2Of16();
  }

  lemma ChunkNumber(bits: seq<bool>, values: seq<nat>, k: nat)
    requires Begins(bits, values) && k < |values|
    ensures 16 * k + 16 <= |bits| && Number(Chunk(bits, k)) == values[k] % Pow2(WIDTH)
  {
    assert FieldIs(bits, values, k);
    NumberOfValue(values[k], WIDTH);
  }

  // The fields of a buffer, zero beyond its end.
  ghost function WordsOf(buf: seq<Byte>): nat -> nat {
    (k: nat) => if 16 * k + 16 <= 8 * |buf| then Word(buf, k) else 0
  }

  // What follows treats the fields as an unknown function w; only here is it taken apart.
  ghost predicate IsWord(w: nat -> nat, buf: seq<Byte>, k: nat) {
    16 * k + 16 <= 8 * |buf| ==> w(k) == Word(buf, k)
  }

  ghost predicate Renders(w: nat -> nat, buf: seq<Byte>) {
    forall k: nat {:trigger IsWord(w, buf, k)} :: IsWord(w, buf, k)
  }

  lemma WordsRender(buf: seq<Byte>)
    ensures Renders(WordsOf(buf), buf)
  {
  }

  // Field k is the low half of value k.
  ghost predicate Shows(w: nat -> nat, values: seq<nat>) {
    forall k {:trigger LowHalf(w, values, k)} :: 0 <= k < |values| ==> LowHalf(w, values, k)
  }

  ghost predicate LowHalf(w: nat -> nat, values: seq<nat>, k: nat)
    requires k < |values|
  {
    w(k) == values[k] % 65536
  }

  lemma BeginsShows(buf: seq<Byte>, w: nat -> nat, values: seq<nat>)
    requires Begins(AllBits(buf), values) && Renders(w, buf)
    ensures Shows(w, values)
  {
    forall k | 0 <= k < |values| ensures LowHalf(w, values, k) {
      assert IsWord(w, buf, k);
      ChunkNumber(AllBits(buf), values, k);
      LowBits(values[k]);
    }
  }

  lemma SmallWord(w: nat -> nat, values: seq<nat>, k: nat, v: nat)
    requires Shows(w, values) && k < |values| && values[k] == v
    ensures w(k) == v <==> v < 65536
    ensures v >= 65536 ==> w(k) < v
  {
    assert LowHalf(w, values, k);
  }

  lemma {:induction false} AllBitsConcat(a: seq<Byte>, b: seq<Byte>)
    ensures AllBits(a + b) == AllBits(a) + AllBits(b)
  {
    if b == [] {
      assert a + b == a;
    } else {
      var init := b[..|b| - 1];
      assert (a + b)[..|a + b| - 1] == a + init;
      AllBitsConcat(a, init);
    }
  }

  lemma FieldsStay(buf: seq<Byte>, rest: seq<Byte>, values: seq<nat>)
    requires Begins(AllBits(buf), values)
    ensures Begins(AllBits(buf + rest), values)
  {
    AllBitsConcat(buf, rest);
    BeginsStill(AllBits(buf), AllBits(rest), values);
  }

  // ---------------------------------------------------------------- the list of deltas

  // The wrapping difference of two u32 values.
  function Delta(prev: nat, id: nat): nat {
    if prev <= id then id - prev else if prev <= id + 0x1_0000_0000 then id + 0x1_0000_0000 - prev else 0
  }

  function Deltas(ids: seq<nat>): (d: seq<nat>)
    ensures |d| == if ids == [] then 0 else |ids| - 1
  {
    if ids == [] then [] else seq(|ids| - 1, i requires 0 <= i < |ids| - 1 => Delta(ids[i], ids[i + 1]))
  }

  method WriteField(writer: BitWriter, ghost values: seq<nat>, v: nat)
    requires writer.Valid() && Begins(writer.Bits(), values) && |writer.Bits()| == 16 * |values|
    modifies writer
    ensures writer.Valid() && Begins(writer.Bits(), values + [v]) && |writer.Bits()| == 16 * (|values| + 1)
  {
    AppendField(writer.Bits(), values, v);
    writer.WriteBits(v, WIDTH);
  }

  method FinishFields(writer: BitWriter, ghost values: seq<nat>) returns (buf: seq<Byte>)
    requires writer.Valid() && Begins(writer.Bits(), values) && |writer.Bits()| == 16 * |values|
    ensures Begins(AllBits(buf), values) && |buf| == 2 * |values|
  {
    buf := writer.Finish();
    BeginsStill(writer.Bits(), Zeros(8 * |buf| - |writer.Bits()|), values);
  }

  lemma DeltasStep(ids: seq<nat>, i: nat)
    requires 0 < i < |ids|
    ensures Deltas(ids)[..i] == Deltas(ids)[..i - 1] + [Delta(ids[i - 1], ids[i])]
  {
    var d := Deltas(ids);
    assert d[..i] == d[..i - 1] + [d[i - 1]];
  }

  method EncodeCompressedList(ids: seq<nat>) returns (buf: seq<Byte>)
    requires ids != []
    ensures Begins(AllBits(buf), Deltas(ids)) && |buf| == 2 * (|ids| - 1)
  {
    var writer := new BitWriter();
    var prev := ids[0];
    ghost var done := [];
    for i := 1 to |ids|
      invariant writer.Valid() && prev == ids[i - 1] && done == Deltas(ids)[..i - 1]
      invariant Begins(writer.Bits(), done) && |writer.Bits()| == 16 * |done|
    {
      var delta := Delta(prev, ids[i]);
      DeltasStep(ids, i);
      WriteField(writer, done, delta);
      done := done + [delta];
      prev := ids[i];
    }
    assert Deltas(ids)[..|ids| - 1] == Deltas(ids);
    buf := FinishFields(writer, done);
  }

  method NextWord(reader: BitReader, ghost w: nat -> nat, ghost j: nat) returns (v: nat)
    requires reader.Valid() && reader.Position() == 16 * j && 16 * j + 16 <= 8 * |reader.buf| && Renders(w, reader.buf)
    modifies reader
    ensures reader.Valid() && reader.Position() == 16 * (j + 1) && v == w(j)
  {
    assert IsWord(w, reader.buf, j);
    v := reader.ReadBits(WIDTH);
  }

  // The ids that the first n fields describe.
  ghost function ListIds(w: nat -> nat, first: nat, n: nat): (r: seq<nat>)
    ensures |r| == n + 1
  {
    if n == 0 then [first]
    else
      var before := ListIds(w, first, n - 1);
      before + [before[n - 1] + w(n - 1)]
  }

  method ReadList(reader: BitReader, ghost w: nat -> nat, nbIds: nat, first: nat) returns (ids: seq<nat>)
    requires reader.Valid() && reader.Position() == 0 && nbIds > 0
    requires 2 * (nbIds - 1) <= |reader.buf| && Renders(w, reader.buf)
    modifies reader
    ensures reader.Valid() && reader.Position() == 16 * (nbIds - 1) && ids == ListIds(w, first, nbIds - 1)
  {
    ids := [first];
    var prev := first;
    for i := 1 to nbIds
      invariant reader.Valid() && reader.Position() == 16 * (i - 1)
      invariant ids == ListIds(w, first, i - 1) && prev == ids[i - 1]
    {
      var delta := NextWord(reader, w, i - 1);
      prev := prev + delta;
      ids := ids + [prev];
    }
  }

  method DecodeCompressedList(buf: seq<Byte>, nbIds: nat, first: nat) returns (r: Fields.Option<(seq<nat>, nat)>)
    ensures r == if nbIds == 0 || |buf| < 2 * (nbIds - 1) then Fields.None
                 else Fields.Some((ListIds(WordsOf(buf), first, nbIds - 1), 2 * (nbIds - 1)))
  {
    if nbIds == 0 {
      return Fields.None;
    }
    if nbIds == 1 {
      return Fields.Some(([first], 0));
    }
    if |buf| < 2 * (nbIds - 1) {
      return Fields.None;
    }
    WordsRender(buf);
    var reader := new BitReader(buf);
    var ids := ReadList(reader, WordsOf(buf), nbIds, first);
    var n := reader.BytesConsumed();
    r := Fields.Some((ids, n));
  }

  ghost predicate SmallDeltas(ids: seq<nat>) {
    forall i {:trigger Near(ids, i)} :: 0 <= i < |ids| - 1 ==> Near(ids, i)
  }

  // In order, and by less than 16 bits count.
  ghost predicate Near(ids: seq<nat>, i: nat)
    requires i + 1 < |ids|
  {
    ids[i] <= ids[i + 1] < ids[i] + 65536
  }

  lemma DeltasAt(ids: seq<nat>, k: nat)
    requires k + 1 < |ids| && ids[k] <= ids[k + 1]
    ensures Deltas(ids)[k] == ids[k + 1] - ids[k]
  {
  }

  lemma ListStep(w: nat -> nat, ids: seq<nat>, n: nat)
    requires 0 < n < |ids| && ListIds(w, ids[0], n - 1) == ids[..n] && w(n - 1) + ids[n - 1] == ids[n]
    ensures ListIds(w, ids[0], n) == ids[..n + 1]
  {
    assert ids[..n + 1] == ids[..n] + [ids[n]];
  }

  lemma {:induction false} ListIdsAre(w: nat -> nat, ids: seq<nat>, n: nat)
    requires n < |ids| && Shows(w, Deltas(ids)) && SmallDeltas(ids)
    ensures ListIds(w, ids[0], n) == ids[..n + 1]
  {
    if n > 0 {
      ListIdsAre(w, ids, n - 1);
      assert Near(ids, n - 1);
      DeltasAt(ids, n - 1);
      SmallWord(w, Deltas(ids), n - 1, ids[n] - ids[n - 1]);
      ListStep(w, ids, n);
    }
  }

  lemma {:induction false} ListPrefix(w: nat -> nat, first: nat, m: nat, n: nat)
    requires m <= n
    ensures ListIds(w, first, n)[..m + 1] == ListIds(w, first, m)
  {
    if m < n {
      ListPrefix(w, first, m, n - 1);
      assert ListIds(w, first, n)[..m + 1] == ListIds(w, first, n - 1)[..m + 1];
    }
  }

  lemma ListAt(w: nat -> nat, first: nat, n: nat, i: nat)
    requires i < n
    ensures ListIds(w, first, n)[i + 1] == ListIds(w, first, n)[i] + w(i)
  {
    ListPrefix(w, first, i + 1, n);
    var r, p := ListIds(w, first, n), ListIds(w, first, i + 1);
    assert r[i + 1] == r[..i + 2][i + 1] && r[i] == r[..i + 2][i];
  }

  // Fields only add: the list that comes out never descends.
  lemma ListClimbs(w: nat -> nat, ids: seq<nat>, i: nat)
    requires i + 1 < |ids| && ListIds(w, ids[0], |ids| - 1) == ids
    ensures ids[i + 1] == ids[i] + w(i)
  {
    ListAt(w, ids[0], |ids| - 1, i);
  }

  lemma ListLost(w: nat -> nat, ids: seq<nat>, i: nat)
    requires i + 1 < |ids| && Shows(w, Deltas(ids)) && !Near(ids, i)
    ensures ListIds(w, ids[0], |ids| - 1) != ids
  {
    if ListIds(w, ids[0], |ids| - 1) == ids {
      ListClimbs(w, ids, i);
      DeltasAt(ids, i);
      SmallWord(w, Deltas(ids), i, ids[i + 1] - ids[i]);
    }
  }

  lemma ListBack(w: nat -> nat, ids: seq<nat>)
    requires ids != [] && Shows(w, Deltas(ids)) && SmallDeltas(ids)
    ensures ListIds(w, ids[0], |ids| - 1) == ids
  {
    ListIdsAre(w, ids, |ids| - 1);
    assert ids[..|ids|] == ids;
  }

  // A list, in whatever order, comes back exactly when it never descends and no two neighbours are
  // 65536 or more apart.
  lemma ListRoundTrip(w: nat -> nat, ids: seq<nat>)
    requires ids != [] && Shows(w, Deltas(ids))
    ensures ListIds(w, ids[0], |ids| - 1) == ids <==> SmallDeltas(ids)
  {
    if SmallDeltas(ids) {
      ListBack(w, ids);
    } else {
      var i: nat :| i < |ids| - 1 && !Near(ids, i);
      ListLost(w, ids, i);
    }
  }

  // What the decoder makes of any list: each delta keeps its low half only.
  function Summed(ids: seq<nat>): (r: seq<nat>)
    ensures |r| == |ids|
  {
    if |ids| <= 1 then ids
    else
      var n := |ids| - 1;
      var before := Summed(ids[..n]);
      before + [before[n - 1] + Delta(ids[n - 1], ids[n]) % 65536]
  }

  lemma SummedPair(a: nat, b: nat)
    ensures Summed([a, b]) == [a, a + Delta(a, b) % 65536]
  {
    assert [a, b][..1] == [a];
  }

  lemma SummedStep(ids: seq<nat>, n: nat)
    requires 0 < n < |ids|
    ensures Summed(ids[..n + 1]) == Summed(ids[..n]) + [Summed(ids[..n])[n - 1] + Delta(ids[n - 1], ids[n]) % 65536]
  {
    assert ids[..n + 1][..n] == ids[..n];
  }

  lemma NextSummed(w: nat -> nat, ids: seq<nat>, n: nat, before: seq<nat>)
    requires 0 < n < |ids| && Shows(w, Deltas(ids))
    requires before == Summed(ids[..n]) && ListIds(w, ids[0], n - 1) == before
    ensures ListIds(w, ids[0], n) == Summed(ids[..n + 1])
  {
    SummedStep(ids, n);
    assert LowHalf(w, Deltas(ids), n - 1);
    assert ListIds(w, ids[0], n) == before + [before[n - 1] + w(n - 1)];
  }

  lemma {:induction false} ListIsSummed(w: nat -> nat, ids: seq<nat>, n: nat)
    requires n < |ids| && Shows(w, Deltas(ids))
    ensures ListIds(w, ids[0], n) == Summed(ids[..n + 1])
  {
    if n > 0 {
      ListIsSummed(w, ids, n - 1);
      NextSummed(w, ids, n, Summed(ids[..n]));
    }
  }

  lemma ListReads(w: nat -> nat, ids: seq<nat>)
    requires ids != [] && Shows(w, Deltas(ids))
    ensures ListIds(w, ids[0], |ids| - 1) == Summed(ids)
  {
    ListIsSummed(w, ids, |ids| - 1);
    assert ids[..|ids|] == ids;
  }

  ghost function LowHalves(values: seq<nat>): nat -> nat {
    (k: nat) => if k < |values| then values[k] % 65536 else 0
  }

  lemma SummedWhole(ids: seq<nat>)
    ensures Summed(ids) == ids <==> SmallDeltas(ids)
  {
    if ids != [] {
      var w := LowHalves(Deltas(ids));
      assert Shows(w, Deltas(ids));
      ListReads(w, ids);
      ListRoundTrip(w, ids);
    }
  }

  // ---------------------------------------------------------------- edges as 32-bit words

  // Start and end of every block, relative to the first id.
  ghost predicate LaysOut(buf: seq<Byte>, b: seq<Block>, base: nat)
    requires From(b, base)
  {
    8 * |b| <= |buf| && forall i {:trigger EdgeAt(buf, b[i], base, i)} :: 0 <= i < |b| ==> EdgeAt(buf, b[i], base, i)
  }

  ghost predicate EdgeAt(buf: seq<Byte>, e: Block, base: nat, i: nat)
    requires base <= e.start < e.end && 8 * i + 8 <= |buf|
  {
    && ReadBe(buf[8 * i..8 * i + 4]) == e.start - base
    && ReadBe(buf[8 * i + 4..8 * i + 8]) == e.end - base
  }

  ghost predicate From(b: seq<Block>, base: nat) {
    forall i :: 0 <= i < |b| ==> base <= b[i].start < b[i].end
  }

  lemma JoinedFrom(b: seq<Block>, id: nat, base: nat)
    requires From(b, base) && base <= id
    ensures From(Joined(b, id), base)
  {
  }

  lemma {:induction false} BlocksFrom(ids: seq<nat>)
    requires ids != [] && Ascending(ids)
    ensures From(ToBlocks(ids), ids[0])
  {
    var init, id := ids[..|ids| - 1], ids[|ids| - 1];
    if init != [] {
      BlocksFrom(init);
      JoinedFrom(ToBlocks(init), id, ids[0]);
    } else {
      assert ToBlocks(init) == [];
    }
  }

  lemma {:induction false} BlocksBelow(ids: seq<nat>, bound: nat)
    requires Ascending(ids) && (ids != [] ==> ids[|ids| - 1] < bound)
    ensures forall k :: 0 <= k < |ToBlocks(ids)| ==> ToBlocks(ids)[k].end <= bound
  {
    if ids != [] {
      BlocksBelow(ids[..|ids| - 1], bound);
    }
  }

  lemma EdgesStay(buf: seq<Byte>, more: seq<Byte>, b: seq<Block>, base: nat)
    requires From(b, base) && LaysOut(buf, b, base)
    ensures LaysOut(buf + more, b, base)
  {
    forall i | 0 <= i < |b| ensures EdgeAt(buf + more, b[i], base, i) {
      assert EdgeAt(buf, b[i], base, i);
      assert (buf + more)[8 * i..8 * i + 4] == buf[8 * i..8 * i + 4];
      assert (buf + more)[8 * i + 4..8 * i + 8] == buf[8 * i + 4..8 * i + 8];
    }
  }

  lemma TwoWords(buf: seq<Byte>, start: seq<Byte>, end: seq<Byte>, i: nat)
    requires |buf| == 8 * i && |start| == |end| == 4
    ensures var r := buf + start + end;
            r == buf + (start + end) && r[8 * i..8 * i + 4] == start && r[8 * i + 4..8 * i + 8] == end
  {
  }

  lemma AppendEdge(buf: seq<Byte>, b: seq<Block>, base: nat, e: Block)
    requires From(b, base) && LaysOut(buf, b, base) && |buf| == 8 * |b| && base <= e.start < e.end < 0x1_0000_0000
    ensures LaysOut(buf + Be32(e.start - base) + Be32(e.end - base), b + [e], base)
  {
    Be32RoundTrip(e.start - base);
    Be32RoundTrip(e.end - base);
    AppendWords(buf, b, base, e, Be32(e.start - base), Be32(e.end - base));
  }

  lemma AppendWords(buf: seq<Byte>, b: seq<Block>, base: nat, e: Block, start: seq<Byte>, end: seq<Byte>)
    requires From(b, base) && LaysOut(buf, b, base) && |buf| == 8 * |b| && base <= e.start < e.end
    requires |start| == |end| == 4 && ReadBe(start) == e.start - base && ReadBe(end) == e.end - base
    ensures LaysOut(buf + start + end, b + [e], base)
  {
    EdgesStay(buf, start + end, b, base);
    TwoWords(buf, start, end, |b|);
    LaysOneMore(buf + start + end, b, base, e);
  }

  lemma LaysOneMore(r: seq<Byte>, b: seq<Block>, base: nat, e: Block)
    requires From(b, base) && LaysOut(r, b, base) && base <= e.start < e.end
    requires 8 * |b| + 8 <= |r| && EdgeAt(r, e, base, |b|)
    ensures LaysOut(r, b + [e], base)
  {
    forall i | 0 <= i < |b + [e]| ensures EdgeAt(r, (b + [e])[i], base, i) {
      assert i < |b| ==> (b + [e])[i] == b[i] && EdgeAt(r, b[i], base, i);
    }
  }

  method EncodeUncompressedEdges(ids: seq<nat>) returns (buf: seq<Byte>)
    requires ids != [] && Ascending(ids) && ids[|ids| - 1] + 1 < 0x1_0000_0000
    ensures From(ToBlocks(ids), ids[0]) && LaysOut(buf, ToBlocks(ids), ids[0]) && |buf| == 8 * |ToBlocks(ids)|
  {
    BlocksFrom(ids);
    BlocksBelow(ids, ids[|ids| - 1] + 1);
    var blocks := SplitBlocks(ids);
    buf := WriteEdges(blocks, ids[0]);
  }

  method WriteEdge(buf: seq<Byte>, ghost done: seq<Block>, base: nat, e: Block) returns (r: seq<Byte>)
    requires From(done, base) && LaysOut(buf, done, base) && |buf| == 8 * |done|
    requires base <= e.start < e.end < 0x1_0000_0000
    ensures From(done + [e], base) && LaysOut(r, done + [e], base) && |r| == 8 * (|done| + 1)
  {
    AppendEdge(buf, done, base, e);
    r := buf + Be32(e.start - base) + Be32(e.end - base);
  }

  method WriteEdges(blocks: seq<Block>, base: nat) returns (buf: seq<Byte>)
    requires From(blocks, base) && forall k :: 0 <= k < |blocks| ==> blocks[k].end < 0x1_0000_0000
    ensures LaysOut(buf, blocks, base) && |buf| == 8 * |blocks|
  {
    buf := [];
    ghost var done := [];
    for i := 0 to |blocks|
      invariant |buf| == 8 * |done| && done == blocks[..i] && From(done, base) && LaysOut(buf, done, base)
    {
      buf := WriteEdge(buf, done, base, blocks[i]);
      done := done + [blocks[i]];
    }
    assert done == blocks;
  }

  // The loop of the decoder from byte `off` on, with `ids` read so far.
  ghost function ReadEdges(
    buf: seq<Byte>, off: nat, ids: seq<nat>, nbIds: nat, first: nat): Fields.Option<(seq<nat>, nat)>
    decreases |buf| - off
  {
    if |ids| >= nbIds then Fields.Some((ids[..nbIds], off))
    else if |buf| < off + 8 then Fields.None
    else
      var start, end := first + ReadBe(buf[off..off + 4]), first + ReadBe(buf[off + 4..off + 8]);
      ReadEdges(buf, off + 8, ids + Range(start, end), nbIds, first)
  }

  // Reading on from here gives `all`.
  ghost predicate EdgesOn(
    buf: seq<Byte>, off: nat, ids: seq<nat>, nbIds: nat, first: nat, all: Fields.Option<(seq<nat>, nat)>) {
    ReadEdges(buf, off, ids, nbIds, first) == all
  }

  lemma EdgesEnd(
    buf: seq<Byte>, off: nat, ids: seq<nat>, nbIds: nat, first: nat, all: Fields.Option<(seq<nat>, nat)>)
    requires EdgesOn(buf, off, ids, nbIds, first, all)
    ensures |ids| >= nbIds ==> all == Fields.Some((ids[..nbIds], off))
    ensures |ids| < nbIds && |buf| < off + 8 ==> all == Fields.None
  {
  }

  method NextEdge(
    buf: seq<Byte>, off: nat, ids: seq<nat>, ghost nbIds: nat, first: nat,
    ghost all: Fields.Option<(seq<nat>, nat)>)
    returns (more: seq<nat>)
    requires |ids| < nbIds && off + 8 <= |buf| && EdgesOn(buf, off, ids, nbIds, first, all)
    ensures EdgesOn(buf, off + 8, more, nbIds, first, all)
  {
    var start, end := first + ReadBe(buf[off..off + 4]), first + ReadBe(buf[off + 4..off + 8]);
    more := ids + Range(start, end);
  }

  method DecodeEdges(
    buf: seq<Byte>, nbIds: nat, first: nat, ghost all: Fields.Option<(seq<nat>, nat)>)
    returns (r: Fields.Option<(seq<nat>, nat)>)
    requires EdgesOn(buf, 0, [], nbIds, first, all)
    ensures r == all
  {
    var ids := [];
    var off := 0;
    while |ids| < nbIds
      invariant EdgesOn(buf, off, ids, nbIds, first, all)
      decreases |buf| - off
    {
      EdgesEnd(buf, off, ids, nbIds, first, all);
      if |buf| < off + 8 {
        return Fields.None;
      }
      ids := NextEdge(buf, off, ids, nbIds, first, all);
      off := off + 8;
    }
    EdgesEnd(buf, off, ids, nbIds, first, all);
    r := Fields.Some((ids[..nbIds], off));
  }

  method DecodeUncompressedEdges(buf: seq<Byte>, nbIds: nat, first: nat) returns (r: Fields.Option<(seq<nat>, nat)>)
    ensures r == ReadEdges(buf, 0, [], nbIds, first)
  {
    r := DecodeEdges(buf, nbIds, first, ReadEdges(buf, 0, [], nbIds, first));
  }

  lemma FlattenGrows(b: seq<Block>, i: nat)
    requires i < |b| && b[i].start < b[i].end
    ensures Flatten(b[..i + 1]) == Flatten(b[..i]) + Range(b[i].start, b[i].end)
    ensures |Flatten(b[..i])| < |Flatten(b[..i + 1])|
  {
    assert b[..i + 1][..i] == b[..i];
  }

  lemma {:induction false} FlattenPrefix(b: seq<Block>, i: nat)
    requires i <= |b| && Proper(b)
    ensures |Flatten(b[..i])| <= |Flatten(b)| && (i < |b| ==> |Flatten(b[..i])| < |Flatten(b)|)
    decreases |b| - i
  {
    if i < |b| {
      FlattenGrows(b, i);
      FlattenPrefix(b, i + 1);
    } else {
      assert b[..i] == b;
    }
  }

  lemma EdgeStep(buf: seq<Byte>, e: Block, base: nat, i: nat, ids: seq<nat>, nbIds: nat)
    requires base <= e.start < e.end && 8 * i + 8 <= |buf| && EdgeAt(buf, e, base, i) && |ids| < nbIds
    ensures ReadEdges(buf, 8 * i, ids, nbIds, base)
         == ReadEdges(buf, 8 * (i + 1), ids + Range(e.start, e.end), nbIds, base)
  {
  }

  lemma FlattenAll(b: seq<Block>, i: nat)
    requires i == |b|
    ensures Flatten(b[..i]) == Flatten(b)
  {
    assert b[..i] == b;
  }

  // Reading on from block i.
  lemma {:induction false} ReadEdgesFrom(buf: seq<Byte>, b: seq<Block>, base: nat, i: nat)
    requires From(b, base) && i <= |b| && LaysOut(buf, b, base)
    ensures ReadEdges(buf, 8 * i, Flatten(b[..i]), |Flatten(b)|, base) == Fields.Some((Flatten(b), 8 * |b|))
    decreases |b| - i
  {
    FlattenPrefix(b, i);
    if i < |b| {
      assert EdgeAt(buf, b[i], base, i);
      EdgeStep(buf, b[i], base, i, Flatten(b[..i]), |Flatten(b)|);
      FlattenGrows(b, i);
      ReadEdgesFrom(buf, b, base, i + 1);
    } else {
      FlattenAll(b, i);
      assert Flatten(b)[..|Flatten(b)|] == Flatten(b);
    }
  }

  // ---------------------------------------------------------------- edges as 16-bit fields

  // Distance from the end of the block before, and length.
  function EdgeValues(b: seq<Block>, base: nat): (v: seq<nat>)
    ensures |v| == 2 * |b|
  {
    if b == [] then []
    else
      var n := |b| - 1;
      EdgeValues(b[..n], base) + [Minus(b[n].start, Before(b, base, n))] + [Minus(b[n].end, b[n].start)]
  }

  // Never negative for blocks in order.
  function Minus(m: nat, n: nat): nat {
    if n <= m then m - n else 0
  }

  // Where the block before i ends.
  function Before(b: seq<Block>, base: nat, i: nat): nat
    requires i <= |b|
  {
    if i == 0 then base else b[i - 1].end
  }

  ghost predicate Apart(b: seq<Block>) {
    forall i {:trigger InOrder(b, i)} :: 0 <= i < |b| - 1 ==> InOrder(b, i)
  }

  ghost predicate InOrder(b: seq<Block>, i: nat)
    requires i + 1 < |b|
  {
    b[i].end <= b[i + 1].start
  }

  lemma {:induction false} BlocksApart(ids: seq<nat>)
    requires Ascending(ids)
    ensures Apart(ToBlocks(ids))
  {
    if ids != [] {
      var init, r := ids[..|ids| - 1], ToBlocks(ids);
      var b := ToBlocks(init);
      BlocksApart(init);
      assert init != [] ==> init[|init| - 1] < ids[|ids| - 1];
      forall i | 0 <= i < |r| - 1 ensures InOrder(r, i) {
        assert i < |b| - 1 ==> InOrder(b, i);
      }
    }
  }

  // Every block starts at or after the end of the one before.
  ghost predicate Runs(b: seq<Block>, base: nat) {
    forall i {:trigger RunAfter(b, base, i)} :: 0 <= i < |b| ==> RunAfter(b, base, i)
  }

  ghost predicate RunAfter(b: seq<Block>, base: nat, i: nat)
    requires i < |b|
  {
    base <= Before(b, base, i) <= b[i].start < b[i].end
  }

  lemma RunsOf(b: seq<Block>, base: nat)
    requires From(b, base) && Apart(b)
    ensures Runs(b, base)
  {
    forall i | 0 <= i < |b| ensures RunAfter(b, base, i) {
      assert i > 0 ==> InOrder(b, i - 1);
    }
  }

  method EncodeCompressedEdges(ids: seq<nat>) returns (buf: seq<Byte>)
    requires ids != [] && Ascending(ids)
    ensures From(ToBlocks(ids), ids[0]) && Apart(ToBlocks(ids))
    ensures Begins(AllBits(buf), EdgeValues(ToBlocks(ids), ids[0])) && |buf| == 4 * |ToBlocks(ids)|
  {
    BlocksFrom(ids);
    BlocksApart(ids);
    RunsOf(ToBlocks(ids), ids[0]);
    var blocks := SplitBlocks(ids);
    EdgeValuesAre(blocks, ids[0]);
    buf := WriteRuns(blocks, ids[0], EdgeValues(blocks, ids[0]));
  }

  method WritePair(writer: BitWriter, ghost done: seq<nat>, dStart: nat, dLen: nat) returns (ghost more: seq<nat>)
    requires writer.Valid() && Begins(writer.Bits(), done) && |writer.Bits()| == 16 * |done|
    modifies writer
    ensures writer.Valid() && Begins(writer.Bits(), more) && |writer.Bits()| == 16 * |more|
    ensures more == done + [dStart] + [dLen]
  {
    WriteField(writer, done, dStart);
    more := done + [dStart];
    WriteField(writer, more, dLen);
    more := more + [dLen];
  }

  // Two entries for each block: the gap before it and its length.
  ghost predicate Edges(edges: seq<nat>, b: seq<Block>, base: nat) {
    && |edges| == 2 * |b|
    && forall i {:trigger EdgePair(edges, b, base, i)} :: 0 <= i < |b| ==> EdgePair(edges, b, base, i)
  }

  ghost predicate EdgePair(edges: seq<nat>, b: seq<Block>, base: nat, i: nat)
    requires i < |b| && |edges| == 2 * |b|
  {
    edges[2 * i] == Minus(b[i].start, Before(b, base, i)) && edges[2 * i + 1] == Minus(b[i].end, b[i].start)
  }

  lemma EdgeValuesAre(b: seq<Block>, base: nat)
    ensures Edges(EdgeValues(b, base), b, base)
  {
    forall i | 0 <= i < |b| ensures EdgePair(EdgeValues(b, base), b, base, i) {
      EdgeValuesAt(b, base, i);
    }
  }

  // The first i pairs have been written, and the i-th block follows.
  ghost predicate UpTo(done: seq<nat>, edges: seq<nat>, b: seq<Block>, base: nat, i: nat, prev: nat)
    requires i <= |b|
  {
    2 * i <= |edges| && done == edges[..2 * i] && base + prev == Before(b, base, i)
  }

  lemma NextEdges(
    done: seq<nat>, more: seq<nat>, edges: seq<nat>, b: seq<Block>, base: nat, i: nat, prev: nat,
    dStart: nat, dLen: nat)
    requires Runs(b, base) && Edges(edges, b, base) && i < |b| && UpTo(done, edges, b, base, i, prev)
    requires dStart == b[i].start - base - prev && dLen == b[i].end - b[i].start
    requires more == done + [dStart] + [dLen]
    ensures b[i].end >= base && UpTo(more, edges, b, base, i + 1, b[i].end - base)
  {
    assert RunAfter(b, base, i) && EdgePair(edges, b, base, i);
    assert edges[..2 * (i + 1)] == edges[..2 * i] + [edges[2 * i]] + [edges[2 * i + 1]];
  }

  lemma RunFits(b: seq<Block>, base: nat, i: nat, prev: nat)
    requires Runs(b, base) && i < |b| && base + prev == Before(b, base, i)
    ensures base + prev <= b[i].start < b[i].end
  {
    assert RunAfter(b, base, i);
  }

  method WriteRun(
    writer: BitWriter, ghost done: seq<nat>, ghost edges: seq<nat>, blocks: seq<Block>, base: nat, i: nat, prev: nat)
    returns (ghost more: seq<nat>, next: nat)
    requires Runs(blocks, base) && Edges(edges, blocks, base) && i < |blocks|
    requires writer.Valid() && Begins(writer.Bits(), done) && |writer.Bits()| == 16 * |done|
    requires UpTo(done, edges, blocks, base, i, prev)
    modifies writer
    ensures writer.Valid() && Begins(writer.Bits(), more) && |writer.Bits()| == 16 * |more|
    ensures UpTo(more, edges, blocks, base, i + 1, next)
  {
    RunFits(blocks, base, i, prev);
    var dStart: nat, dLen: nat := blocks[i].start - base - prev, blocks[i].end - blocks[i].start;
    more := WritePair(writer, done, dStart, dLen);
    NextEdges(done, more, edges, blocks, base, i, prev, dStart, dLen);
    next := blocks[i].end - base;
  }

  method WriteRuns(blocks: seq<Block>, base: nat, ghost edges: seq<nat>) returns (buf: seq<Byte>)
    requires Runs(blocks, base) && Edges(edges, blocks, base)
    ensures Begins(AllBits(buf), edges) && |buf| == 2 * |edges|
  {
    var writer := new BitWriter();
    var prev: nat := 0;
    ghost var done := edges[..0];
    for i := 0 to |blocks|
      invariant writer.Valid() && Begins(writer.Bits(), done) && |writer.Bits()| == 16 * |done|
      invariant UpTo(done, edges, blocks, base, i, prev)
    {
      done, prev := WriteRun(writer, done, edges, blocks, base, i, prev);
    }
    assert done == edges;
    buf := FinishFields(writer, done);
  }

  // The loop of the decoder from block k on; the buffer has `size` bytes.
  ghost function ReadRuns(size: nat, w: nat -> nat, k: nat, abs: nat, ids: seq<nat>, nbIds: nat, first: nat)
    : Fields.Option<(seq<nat>, nat)>
    decreases size - 4 * k
  {
    if |ids| >= nbIds then Fields.Some((ids[..nbIds], 4 * k))
    else if size < 4 * k + 4 then Fields.None
    else
      var start, len := first + abs + w(2 * k), w(2 * k + 1);
      ReadRuns(size, w, k + 1, start - first + len, ids + Range(start, start + len), nbIds, first)
  }

  // Reading on from here gives `all`, what reading from the start gives.
  ghost predicate OnTrack(
    size: nat, w: nat -> nat, k: nat, abs: nat, ids: seq<nat>, nbIds: nat, first: nat,
    all: Fields.Option<(seq<nat>, nat)>) {
    ReadRuns(size, w, k, abs, ids, nbIds, first) == all
  }

  lemma ReadOn(
    size: nat, w: nat -> nat, k: nat, abs: nat, ids: seq<nat>, nbIds: nat, first: nat,
    all: Fields.Option<(seq<nat>, nat)>)
    requires |ids| < nbIds && 4 * k + 4 <= size && OnTrack(size, w, k, abs, ids, nbIds, first, all)
    ensures OnTrack(size, w, k + 1, abs + w(2 * k) + w(2 * k + 1),
                    ids + Range(first + abs + w(2 * k), first + abs + w(2 * k) + w(2 * k + 1)), nbIds, first, all)
  {
  }

  lemma ReadEnds(
    size: nat, w: nat -> nat, k: nat, abs: nat, ids: seq<nat>, nbIds: nat, first: nat,
    all: Fields.Option<(seq<nat>, nat)>)
    requires OnTrack(size, w, k, abs, ids, nbIds, first, all)
    ensures |ids| >= nbIds ==> all == Fields.Some((ids[..nbIds], 4 * k))
    ensures |ids| < nbIds && size < 4 * k + 4 ==> all == Fields.None
  {
  }

  method NextRunWords(reader: BitReader, ghost w: nat -> nat, ghost k: nat) returns (dStart: nat, dLen: nat)
    requires reader.Valid() && reader.Position() == 32 * k && 4 * k + 4 <= |reader.buf| && Renders(w, reader.buf)
    modifies reader
    ensures reader.Valid() && reader.Position() == 32 * (k + 1) && dStart == w(2 * k) && dLen == w(2 * k + 1)
  {
    dStart := NextWord(reader, w, 2 * k);
    dLen := NextWord(reader, w, 2 * k + 1);
  }

  method DecodeRun(
    reader: BitReader, ghost w: nat -> nat, ghost k: nat, abs: nat, ids: seq<nat>, ghost nbIds: nat, first: nat,
    ghost all: Fields.Option<(seq<nat>, nat)>)
    returns (nextAbs: nat, more: seq<nat>)
    requires reader.Valid() && reader.Position() == 32 * k && 4 * k + 4 <= |reader.buf| && Renders(w, reader.buf)
    requires |ids| < nbIds && OnTrack(|reader.buf|, w, k, abs, ids, nbIds, first, all)
    modifies reader
    ensures reader.Valid() && reader.Position() == 32 * (k + 1)
    ensures OnTrack(|reader.buf|, w, k + 1, nextAbs, more, nbIds, first, all)
  {
    ReadOn(|reader.buf|, w, k, abs, ids, nbIds, first, all);
    var dStart, dLen := NextRunWords(reader, w, k);
    var start := first + abs + dStart;
    nextAbs := start - first + dLen;
    more := ids + Range(start, start + dLen);
  }

  // Are there 32 more bits?
  method HasRun(reader: BitReader, ghost k: nat) returns (more: bool)
    requires reader.Valid() && reader.Position() == 32 * k
    ensures more <==> 4 * k + 4 <= |reader.buf|
  {
    var left := reader.RemainingBits();
    more := left >= 32;
  }

  method RunBytes(reader: BitReader, ghost k: nat) returns (n: nat)
    requires reader.Valid() && reader.Position() == 32 * k
    ensures n == 4 * k
  {
    n := reader.BytesConsumed();
  }

  method DecodeRuns(
    buf: seq<Byte>, ghost w: nat -> nat, nbIds: nat, first: nat, ghost all: Fields.Option<(seq<nat>, nat)>)
    returns (r: Fields.Option<(seq<nat>, nat)>)
    requires Renders(w, buf) && OnTrack(|buf|, w, 0, 0, [], nbIds, first, all)
    ensures r == all
  {
    var ids := [];
    var reader := new BitReader(buf);
    var abs: nat := 0;
    ghost var k := 0;
    while |ids| < nbIds
      invariant reader.Valid() && reader.buf == buf && reader.Position() == 32 * k
      invariant OnTrack(|buf|, w, k, abs, ids, nbIds, first, all)
      decreases |buf| - 4 * k
    {
      ReadEnds(|buf|, w, k, abs, ids, nbIds, first, all);
      var more := HasRun(reader, k);
      if !more {
        return Fields.None;
      }
      abs, ids := DecodeRun(reader, w, k, abs, ids, nbIds, first, all);
      k := k + 1;
    }
    ReadEnds(|buf|, w, k, abs, ids, nbIds, first, all);
    var n := RunBytes(reader, k);
    r := Fields.Some((ids[..nbIds], n));
  }

  method DecodeCompressedEdges(buf: seq<Byte>, nbIds: nat, first: nat) returns (r: Fields.Option<(seq<nat>, nat)>)
    ensures r == ReadRuns(|buf|, WordsOf(buf), 0, 0, [], nbIds, first)
  {
    WordsRender(buf);
    r := DecodeRuns(buf, WordsOf(buf), nbIds, first, ReadRuns(|buf|, WordsOf(buf), 0, 0, [], nbIds, first));
  }

  // Gaps and runs below 65536.
  ghost predicate SmallEdges(b: seq<Block>, base: nat) {
    forall i {:trigger SmallEdge(b, base, i)} :: 0 <= i < |b| ==> SmallEdge(b, base, i)
  }

  ghost predicate SmallEdge(b: seq<Block>, base: nat, i: nat)
    requires i < |b|
  {
    b[i].end < b[i].start + 65536 && b[i].start < Before(b, base, i) + 65536
  }

  lemma {:induction false} EdgeValuesAt(b: seq<Block>, base: nat, i: nat)
    requires i < |b|
    ensures EdgeValues(b, base)[2 * i] == Minus(b[i].start, Before(b, base, i))
    ensures EdgeValues(b, base)[2 * i + 1] == Minus(b[i].end, b[i].start)
  {
    if i < |b| - 1 {
      EdgeValuesAt(b[..|b| - 1], base, i);
    }
  }

  lemma RunStep(size: nat, w: nat -> nat, k: nat, prev: nat, e: Block, base: nat, ids: seq<nat>, nbIds: nat)
    requires base <= prev <= e.start < e.end && |ids| < nbIds && 4 * k + 4 <= size
    requires w(2 * k) == e.start - prev && w(2 * k + 1) == e.end - e.start
    ensures ReadRuns(size, w, k, Minus(prev, base), ids, nbIds, base)
         == ReadRuns(size, w, k + 1, Minus(e.end, base), ids + Range(e.start, e.end), nbIds, base)
  {
  }

  lemma RunWords(w: nat -> nat, b: seq<Block>, base: nat, i: nat)
    requires Runs(b, base) && SmallEdges(b, base) && i < |b| && Shows(w, EdgeValues(b, base))
    ensures base <= Before(b, base, i) <= b[i].start < b[i].end
    ensures w(2 * i) == b[i].start - Before(b, base, i) && w(2 * i + 1) == b[i].end - b[i].start
  {
    assert SmallEdge(b, base, i);
    assert RunAfter(b, base, i);
    EdgeValuesAt(b, base, i);
    SmallWord(w, EdgeValues(b, base), 2 * i, b[i].start - Before(b, base, i));
    SmallWord(w, EdgeValues(b, base), 2 * i + 1, b[i].end - b[i].start);
  }

  lemma {:induction false} ReadRunsFrom(size: nat, w: nat -> nat, b: seq<Block>, base: nat, i: nat)
    requires Runs(b, base) && SmallEdges(b, base) && i <= |b| && 4 * |b| <= size && Proper(b)
    requires Shows(w, EdgeValues(b, base))
    ensures ReadRuns(size, w, i, Minus(Before(b, base, i), base), Flatten(b[..i]), |Flatten(b)|, base)
         == Fields.Some((Flatten(b), 4 * |b|))
    decreases |b| - i
  {
    FlattenPrefix(b, i);
    if i < |b| {
      OneRun(size, w, b, base, i, Flatten(b[..i]), |Flatten(b)|);
      FlattenGrows(b, i);
      ReadRunsFrom(size, w, b, base, i + 1);
    } else {
      FlattenAll(b, i);
      ReadEnough(size, w, i, Minus(Before(b, base, i), base), Flatten(b), base);
    }
  }

  lemma OneRun(size: nat, w: nat -> nat, b: seq<Block>, base: nat, i: nat, ids: seq<nat>, nbIds: nat)
    requires Runs(b, base) && SmallEdges(b, base) && i < |b| && 4 * |b| <= size
    requires Shows(w, EdgeValues(b, base)) && |ids| < nbIds
    ensures ReadRuns(size, w, i, Minus(Before(b, base, i), base), ids, nbIds, base)
         == ReadRuns(size, w, i + 1, Minus(Before(b, base, i + 1), base), ids + Range(b[i].start, b[i].end),
                     nbIds, base)
  {
    RunWords(w, b, base, i);
    RunStep(size, w, i, Before(b, base, i), b[i], base, ids, nbIds);
  }

  lemma ReadEnough(size: nat, w: nat -> nat, k: nat, abs: nat, ids: seq<nat>, first: nat)
    ensures ReadRuns(size, w, k, abs, ids, |ids|, first) == Fields.Some((ids, 4 * k))
  {
    assert ids[..|ids|] == ids;
  }

  // ---------------------------------------------------------------- all four

  // What the formats by edges ask for: the edges of a list in another order would underflow.
  ghost predicate Ordered(ids: seq<nat>, format: Format) {
    format == UncompressedEdges || format == CompressedEdges ==> Ascending(ids)
  }

  ghost predicate Below32(ids: seq<nat>) {
    forall i :: 0 <= i < |ids| ==> ids[i] + 1 < 0x1_0000_0000
  }

  // What the encoder of each format leaves in the buffer.
  ghost predicate Encodes(buf: seq<Byte>, ids: seq<nat>, format: Format)
    requires ids != [] && Ordered(ids, format)
  {
    match format
    case Implicit => buf == []
    case CompressedList => Begins(AllBits(buf), Deltas(ids)) && |buf| == 2 * (|ids| - 1)
    case UncompressedEdges =>
      BlocksFrom(ids);
      LaysOut(buf, ToBlocks(ids), ids[0]) && |buf| == 8 * |ToBlocks(ids)|
    case CompressedEdges =>
      BlocksFrom(ids);
      BlocksApart(ids);
      Begins(AllBits(buf), EdgeValues(ToBlocks(ids), ids[0])) && |buf| == 4 * |ToBlocks(ids)|
  }

  method Encode(ids: seq<nat>, format: Format) returns (buf: seq<Byte>)
    requires ids != [] && Ordered(ids, format) && Below32(ids)
    ensures Encodes(buf, ids, format)
  {
    match format
    case Implicit => buf := [];
    case CompressedList => buf := EncodeCompressedList(ids);
    case UncompressedEdges => buf := EncodeUncompressedEdges(ids);
    case CompressedEdges => buf := EncodeCompressedEdges(ids);
  }

  // What the decoder of each format reads; the second part is the number of bytes.
  // The source underflows on an empty compressed list; that is an error here.
  ghost function Decoded(buf: seq<Byte>, nbIds: nat, first: nat, format: Format): Fields.Option<(seq<nat>, nat)> {
    match format
    case Implicit => Fields.Some((Range(first, first + nbIds), 0))
    case CompressedList =>
      if nbIds == 0 || |buf| < 2 * (nbIds - 1) then Fields.None
      else Fields.Some((ListIds(WordsOf(buf), first, nbIds - 1), 2 * (nbIds - 1)))
    case UncompressedEdges => ReadEdges(buf, 0, [], nbIds, first)
    case CompressedEdges => ReadRuns(|buf|, WordsOf(buf), 0, 0, [], nbIds, first)
  }

  method Decode(buf: seq<Byte>, nbIds: nat, first: nat, format: Format) returns (r: Fields.Option<(seq<nat>, nat)>)
    ensures r == Decoded(buf, nbIds, first, format)
  {
    match format
    case Implicit => r := Fields.Some((Range(first, first + nbIds), 0));
    case CompressedList => r := DecodeCompressedList(buf, nbIds, first);
    case UncompressedEdges => r := DecodeUncompressedEdges(buf, nbIds, first);
    case CompressedEdges => r := DecodeCompressedEdges(buf, nbIds, first);
  }

  // The ids that a format can carry.
  ghost predicate Carries(ids: seq<nat>, format: Format)
    requires ids != []
  {
    match format
    case Implicit => IsContiguous(ids)
    case CompressedList => SmallDeltas(ids)
    case UncompressedEdges => true
    case CompressedEdges => SmallEdges(ToBlocks(ids), ids[0])
  }

  lemma {:induction false} ContiguousIds(ids: seq<nat>, i: nat)
    requires IsContiguous(ids) && i < |ids|
    ensures ids[i] == ids[0] + i
  {
    if i > 0 {
      ContiguousIds(ids, i - 1);
      assert Follows(ids, i - 1);
    }
  }

  lemma RangeIsIds(ids: seq<nat>)
    requires ids != [] && IsContiguous(ids)
    ensures Range(ids[0], ids[0] + |ids|) == ids
  {
    forall i | 0 <= i < |ids| ensures ids[i] == ids[0] + i {
      ContiguousIds(ids, i);
    }
  }

  lemma EdgesRoundTrip(buf: seq<Byte>, b: seq<Block>, base: nat)
    requires From(b, base) && LaysOut(buf, b, base)
    ensures ReadEdges(buf, 0, [], |Flatten(b)|, base) == Fields.Some((Flatten(b), 8 * |b|))
  {
    ReadEdgesFrom(buf, b, base, 0);
    assert b[..0] == [];
  }

  lemma RunsRoundTrip(size: nat, w: nat -> nat, b: seq<Block>, base: nat)
    requires Runs(b, base) && SmallEdges(b, base) && Shows(w, EdgeValues(b, base)) && 4 * |b| <= size && Proper(b)
    ensures ReadRuns(size, w, 0, 0, [], |Flatten(b)|, base) == Fields.Some((Flatten(b), 4 * |b|))
  {
    ReadRunsFrom(size, w, b, base, 0);
    assert b[..0] == [];
  }

  // Each format gives back the ids it can carry, whatever bytes follow, and says how many it read.
  lemma RoundTrip(buf: seq<Byte>, rest: seq<Byte>, ids: seq<nat>, format: Format)
    requires ids != [] && Ordered(ids, format) && Below32(ids)
    requires Encodes(buf, ids, format) && Carries(ids, format)
    ensures Decoded(buf + rest, |ids|, ids[0], format) == Fields.Some((ids, |buf|))
  {
    match format
    case Implicit => RangeIsIds(ids);
    case CompressedList =>
      ListShows(buf, rest, ids);
      ListRoundTrip(WordsOf(buf + rest), ids);
    case UncompressedEdges =>
      BlocksFrom(ids);
      BlocksPartition(ids);
      EdgesStay(buf, rest, ToBlocks(ids), ids[0]);
      EdgesRoundTrip(buf + rest, ToBlocks(ids), ids[0]);
    case CompressedEdges => CompressedRoundTrip(buf, rest, ids);
  }

  lemma ListShows(buf: seq<Byte>, rest: seq<Byte>, ids: seq<nat>)
    requires ids != [] && Encodes(buf, ids, CompressedList)
    ensures Shows(WordsOf(buf + rest), Deltas(ids))
  {
    FieldsStay(buf, rest, Deltas(ids));
    WordsRender(buf + rest);
    BeginsShows(buf + rest, WordsOf(buf + rest), Deltas(ids));
  }

  lemma CompressedRoundTrip(buf: seq<Byte>, rest: seq<Byte>, ids: seq<nat>)
    requires ids != [] && Ascending(ids) && Encodes(buf, ids, CompressedEdges) && Carries(ids, CompressedEdges)
    ensures Decoded(buf + rest, |ids|, ids[0], CompressedEdges) == Fields.Some((ids, |buf|))
  {
    var b := ToBlocks(ids);
    BlocksFrom(ids);
    BlocksApart(ids);
    RunsOf(b, ids[0]);
    BlocksPartition(ids);
    FieldsStay(buf, rest, EdgeValues(b, ids[0]));
    WordsRender(buf + rest);
    BeginsShows(buf + rest, WordsOf(buf + rest), EdgeValues(b, ids[0]));
    RunsRoundTrip(|buf + rest|, WordsOf(buf + rest), b, ids[0]);
  }

  // The format chosen carries any list that climbs without large jumps.
  lemma BestForCarries(ids: seq<nat>)
    requires ids != [] && SmallDeltas(ids)
    ensures Carries(ids, BestFor(ids)) && (BestFor(ids) == Implicit || |ids| > 1)
  {
  }

  // ---------------------------------------------------------------- what comes out otherwise

  lemma {:induction false} ReadEdgesCount(buf: seq<Byte>, off: nat, ids: seq<nat>, nbIds: nat, first: nat)
    ensures var r := ReadEdges(buf, off, ids, nbIds, first); r.Some? ==> |r.value.0| == nbIds
    decreases |buf| - off
  {
    if |ids| < nbIds && off + 8 <= |buf| {
      var start, end := first + ReadBe(buf[off..off + 4]), first + ReadBe(buf[off + 4..off + 8]);
      ReadEdgesCount(buf, off + 8, ids + Range(start, end), nbIds, first);
    }
  }

  lemma {:induction false} ReadRunsCount(
    size: nat, w: nat -> nat, k: nat, abs: nat, ids: seq<nat>, nbIds: nat, first: nat)
    ensures var r := ReadRuns(size, w, k, abs, ids, nbIds, first); r.Some? ==> |r.value.0| == nbIds
    decreases size - 4 * k
  {
    if |ids| < nbIds && 4 * k + 4 <= size {
      var start, len := first + abs + w(2 * k), w(2 * k + 1);
      ReadRunsCount(size, w, k + 1, start - first + len, ids + Range(start, start + len), nbIds, first);
    }
  }

  // Every format yields as many ids as it is asked for, or none.
  lemma DecodedCount(buf: seq<Byte>, nbIds: nat, first: nat, format: Format)
    ensures var r := Decoded(buf, nbIds, first, format); r.Some? ==> |r.value.0| == nbIds
  {
    match format
    case Implicit =>
    case CompressedList =>
    case UncompressedEdges => ReadEdgesCount(buf, 0, [], nbIds, first);
    case CompressedEdges => ReadRunsCount(|buf|, WordsOf(buf), 0, 0, [], nbIds, first);
  }

  function OneByte(b: seq<bool>): (r: Byte)
    requires |b| == 8
    ensures ByteBits(r) == b
  {
    Byte(b[0], b[1], b[2], b[3], b[4], b[5], b[6], b[7])
  }

  // Every list has its two bytes a delta.
  function ListBytes(values: seq<nat>): (r: seq<Byte>)
    ensures |r| == 2 * |values|
  {
    if values == [] then []
    else
      var b := ValueBits(values[|values| - 1], WIDTH);
      ListBytes(values[..|values| - 1]) + [OneByte(b[..8])] + [OneByte(b[8..])]
  }

  lemma AppendWord(before: seq<Byte>, mid: seq<Byte>, after: seq<Byte>, b: seq<bool>)
    requires |b| == 16 && mid == before + [OneByte(b[..8])] && after == mid + [OneByte(b[8..])]
    ensures AllBits(after) == AllBits(before) + b
  {
    AppendByte(before, OneByte(b[..8]));
    AppendByte(mid, OneByte(b[8..]));
    assert b == b[..8] + b[8..];
  }

  lemma {:induction false} ListBytesBegin(values: seq<nat>)
    ensures Begins(AllBits(ListBytes(values)), values) && |AllBits(ListBytes(values))| == 16 * |values|
  {
    if values != [] {
      var init, v := values[..|values| - 1], values[|values| - 1];
      var b, before := ValueBits(v, WIDTH), ListBytes(init);
      ListBytesBegin(init);
      AppendField(AllBits(before), init, v);
      AppendWord(before, before + [OneByte(b[..8])], ListBytes(values), b);
      assert values == init + [v];
    }
  }

  // There is something to send for every list, in the format chosen for it.
  lemma SomeEncodes(ids: seq<nat>)
    requires ids != []
    ensures Encodes(if BestFor(ids) == Implicit then [] else ListBytes(Deltas(ids)), ids, BestFor(ids))
  {
    ListBytesBegin(Deltas(ids));
  }

  lemma ContiguousIsNear(ids: seq<nat>)
    requires IsContiguous(ids)
    ensures SmallDeltas(ids)
  {
    forall i | 0 <= i < |ids| - 1 ensures Near(ids, i) {
      assert Follows(ids, i);
    }
  }
}
