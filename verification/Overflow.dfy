// A cover of 257 ids: its count goes out as one, and the decoder takes the whole sum for the first
// symbol.

module Overflow {
  import opened Bytes
  import opened Fields
  import opened Keys
  import opened Elimination
  import opened Equations
  import opened Decoding
  import opened Exactness
  import opened Guarantees
  import opened Windows
  import opened Encoding
  import opened Sessions
  import opened QuietSessions
  import opened LoneCoded
  import opened Wires
  import StalePivots
  import I = IdStorage
  import W = VectorWire

  // The sources 0, 1, 2, ... of which only 1 is not zero throughout.
  ghost function OnlySecond<T>(F: Field<T>, n: nat): Sources<T> {
    (id: nat) => seq(n, p => if id == 1 then F.one else F.zero)
  }

  lemma {:induction false} SumOfSecond<T(!new)>(F: Field<T>, ev: EncodingVector<T>, x: Assignment<T>, n: nat)
    requires IsField(F) && F.order > 1 && WellFormed(ev) && n <= |ev.ids|
    requires forall i :: 0 <= i < n ==> x(ev.ids[i]) == if i == 1 then F.one else F.zero
    ensures EvSum(F, ev, x, n) == if n > 1 then CoefAt(F, ev, 1) else F.zero
  {
    if n > 0 {
      SumOfSecond(F, ev, x, n - 1);
      Laws(F, CoefAt(F, ev, n - 1), F.one, F.one);
      Laws(F, F.zero, F.one, F.one);
      Laws(F, CoefAt(F, ev, n - 1), F.zero, F.zero);
      NoZeroDivisors(F, CoefAt(F, ev, n - 1), F.zero);
      SumZero(F, F.zero, F.zero);
      if n > 1 {
        SumZero(F, CoefAt(F, ev, 1), F.zero);
      }
    }
  }

  // What the encoder sends after n submissions.
  ghost function Last<T(!new)>(c: EncoderConfig<T>, X: Sources<T>, n: nat): Packet<T>
    requires Quiet(c) && SourcesSized(X, c.symbolSize) && 0 < n <= c.capacity
    requires |After(c, ThenCall(X, n, Generating(Everything))).log| > n
  {
    After(c, ThenCall(X, n, Generating(Everything))).log[n]
  }

  lemma LastIs<T(!new)>(c: EncoderConfig<T>, X: Sources<T>, n: nat)
    requires Quiet(c) && SourcesSized(X, c.symbolSize) && 0 < n <= c.capacity
    ensures Sane(c, Plain(c, X, n).state.window) && Holds(c, Plain(c, X, n).state.window, IdsOf(Held(X, n)))
    ensures |After(c, ThenCall(X, n, Generating(Everything))).log| == n + 1
    ensures Last(c, X, n) == MakePacket(c, Plain(c, X, n).state, IdsOf(Held(X, n)))
  {
    QuietThen(c, X, n, Generating(Everything));
    FindsInWindow(c, Plain(c, X, n).state.window, IdsOf(Held(X, n)));
  }

  lemma LastPayload<T(!new)>(c: EncoderConfig<T>, n: nat, p: nat)
    requires Quiet(c) && c.strategy == VandermondeStrategy && 1 < n <= c.capacity && p < c.symbolSize
    requires var X := OnlySecond(c.F, c.symbolSize); Holds(c, Plain(c, X, n).state.window, IdsOf(Held(X, n)))
    requires var X := OnlySecond(c.F, c.symbolSize); Sane(c, Plain(c, X, n).state.window)
    ensures var X := OnlySecond(c.F, c.symbolSize);
            MakePacket(c, Plain(c, X, n).state, IdsOf(Held(X, n))).payload[p] == Vandermonde(c.F, 1, 1)
  {
    var X := OnlySecond(c.F, c.symbolSize);
    var st, cover := Plain(c, X, n).state, IdsOf(Held(X, n));
    var ev := MakeVector(c, st.at, cover);
    VectorFormed(c, st.at, cover);
    WindowReads(c, X, st.window, cover, p);
    PayloadIsSum(c, st.window, ev, n, Column(c.F, X, p), p);
    SecondColumn(c.F, c.symbolSize, cover, p);
    SumOfSecond(c.F, ev, Column(c.F, X, p), n);
  }

  lemma SecondColumn<T(!new)>(F: Field<T>, size: nat, cover: seq<nat>, p: nat)
    requires p < size && forall i :: 0 <= i < |cover| ==> cover[i] == i
    ensures forall i :: 0 <= i < |cover| ==>
      Column(F, OnlySecond(F, size), p)(cover[i]) == if i == 1 then F.one else F.zero
  {
  }

  // The vector that the decoder reads.
  function Short<T>(): EncodingVector<T> {
    EncodingVector(1, 0, [0], [])
  }

  lemma ReadsShort<T(!new)>(k: Codec<T>, ev: EncodingVector<T>, n: nat)
    requires n == 257 && |ev.ids| == n && ev == EncodingVector(1, 0, ev.ids, [])
    requires forall i :: 0 <= i < n ==> ev.ids[i] == i
    ensures Wires.Reads(k, ev, [], [], Short())
  {
    var w := ToWire(k, ev);
    forall i | 0 <= i < n - 1 ensures I.Follows(ev.ids, i) {
    }
    assert I.IsContiguous(ev.ids);
    assert w.generation == ZERO by {
      ToNatBelow(w.generation);
    }
    assert w.coefs == [];
    W.RangeRoundTrip(w);
    assert I.Range(0, n % 256) == [0];
    ToNatBelow(ZERO);
  }

  // The decoder reads the packet over one id, and takes its payload for symbol 0, which it is not.
  ghost predicate Spoils<T(!new)>(dc: Config<T>, k: Codec<T>, X: Sources<T>, sent: Packet<T>)
    requires IsField(dc.F) && dc.F.order > 1
  {
    && sent.CodedPacket?
    && Crosses(k, sent, CodedPacket(Short(), sent.payload))
    && sent.payload != X(0)
    && Alone(dc, CodedPacket(Short(), sent.payload)) == [SourceReady(Symbol(0, sent.payload))]
  }

  lemma CrossesShort<T(!new)>(k: Codec<T>, sent: Packet<T>, n: nat)
    requires n == 257 && sent.CodedPacket? && |sent.ev.ids| == n && sent.ev == EncodingVector(1, 0, sent.ev.ids, [])
    requires forall i :: 0 <= i < n ==> sent.ev.ids[i] == i
    ensures Crosses(k, sent, CodedPacket(Short(), sent.payload))
  {
    ReadsShort(k, sent.ev, n);
  }

  lemma SumShows<T(!new)>(c: EncoderConfig<T>, n: nat, sent: Packet<T>)
    requires Quiet(c) && IsGenerated(c.F) && c.strategy == VandermondeStrategy && 1 < n <= c.capacity
    requires var X := OnlySecond(c.F, c.symbolSize);
             && Holds(c, Plain(c, X, n).state.window, IdsOf(Held(X, n)))
             && Sane(c, Plain(c, X, n).state.window)
             && sent == MakePacket(c, Plain(c, X, n).state, IdsOf(Held(X, n)))
    ensures |sent.payload| == c.symbolSize && sent.payload != OnlySecond(c.F, c.symbolSize)(0)
  {
    StalePivots.ScaleOccurs(c.F);
    LastPayload(c, n, 0);
    assert OnlySecond(c.F, c.symbolSize)(0)[0] == c.F.zero;
  }

  lemma PacketSpoils<T(!new)>(c: EncoderConfig<T>, dc: Config<T>, k: Codec<T>, n: nat, sent: Packet<T>)
    requires Quiet(c) && Matches(c, dc) && IsGenerated(c.F)
    requires c.strategy == VandermondeStrategy && n == 257 <= c.capacity
    requires var X := OnlySecond(c.F, c.symbolSize);
             && Holds(c, Plain(c, X, n).state.window, IdsOf(Held(X, n)))
             && Sane(c, Plain(c, X, n).state.window)
             && sent == MakePacket(c, Plain(c, X, n).state, IdsOf(Held(X, n)))
    ensures Spoils(dc, k, OnlySecond(c.F, c.symbolSize), sent)
  {
    CrossesShort(k, sent, n);
    SumShows(c, n, sent);
    ShortRun(dc, sent.payload);
  }

  // 257 symbols of which only the second is not zero, a full-window packet, and nothing else
  // arrives: symbol 0 is delivered, and it is not the one that was submitted.
  lemma LongCoverSpoils<T(!new)>(c: EncoderConfig<T>, dc: Config<T>, k: Codec<T>, n: nat)
    requires Quiet(c) && Matches(c, dc) && IsGenerated(c.F)
    requires c.strategy == VandermondeStrategy && n == 257 <= c.capacity
    ensures var X := OnlySecond(c.F, c.symbolSize);
            && SourcesSized(X, c.symbolSize) && |After(c, ThenCall(X, n, Generating(Everything))).log| == n + 1
            && Spoils(dc, k, X, Last(c, X, n))
  {
    var X := OnlySecond(c.F, c.symbolSize);
    LastIs(c, X, n);
    PacketSpoils(c, dc, k, n, Last(c, X, n));
  }

  lemma ShortRun<T(!new)>(dc: Config<T>, payload: seq<T>)
    requires IsGenerated(dc.F) && |payload| == dc.symbolSize
    ensures Alone(dc, CodedPacket(Short(), payload)) == [SourceReady(Symbol(0, payload))]
  {
    assert CoefAt(dc.F, Short(), 0) == dc.F.one;
    SingleCover(dc.F, Short(), 0);
    LoneRun(dc, Short(), 0, dc.F.one, payload);
  }
}
