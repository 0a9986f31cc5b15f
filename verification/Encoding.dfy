// The encoder as functions of its state: what each call sends and leaves behind.

module Encoding {
  import opened Fields
  import opened Keys
  import opened Rows
  import opened Elimination
  import opened Equations
  import opened Coefficients
  import opened Windows
  import opened FecRates
  import opened Decoding
  import Acks
  import F = Feedback
  import LogTables

  datatype Strategy = VandermondeStrategy | CauchyStrategy

  datatype Backpressure = Reject | EvictOldest

  datatype EncoderConfig<!T> = EncoderConfig(
    F: Field<T>, symbolSize: nat, capacity: nat, strategy: Strategy, backpressure: Backpressure,
    policy: Acks.WindowPolicy, numer: nat, denom: nat)

  datatype EncoderState<T> = EncoderState(
    window: Window<T>, at: Label, used: nat, fecCalls: nat, receivers: Acks.Receivers)

  // What a call sends, and the state after it.
  datatype Output<T> = Output(state: EncoderState<T>, packets: seq<Packet<T>>)

  datatype Submission<T> = SymbolSizeMismatch | WindowFull | Accepted(out: Output<T>)

  ghost predicate Sane<T>(c: EncoderConfig<T>, w: Window<T>) {
    Orderly(w) && forall i :: 0 <= i < |w.symbols| ==> |w.symbols[i].data| == c.symbolSize
  }

  // ---------------------------------------------------------------- labels

  function FirstLabel(strategy: Strategy): Label {
    Label(if strategy == CauchyStrategy then 0 else 1, 0)
  }

  // The coded id wraps; with Cauchy coefficients a wrap moves on to the next generation, mod 256.
  function NextLabel(order: nat, strategy: Strategy, at: Label): Label {
    match strategy
    case VandermondeStrategy => at.(codedId := if at.codedId + 2 >= order then 1 else at.codedId + 1)
    case CauchyStrategy =>
      if at.codedId + 1 >= Cycle(order) then Label(0, (at.generation + 1) % 256)
      else at.(codedId := at.codedId + 1)
  }

  function LabelAfter(order: nat, strategy: Strategy, n: nat): Label {
    if n == 0 then FirstLabel(strategy) else NextLabel(order, strategy, LabelAfter(order, strategy, n - 1))
  }

  // The counters against the closed form.
  lemma {:induction false} CauchyLabels(n: nat)
    ensures LabelAfter(256, CauchyStrategy, n) == NthLabel(n)
  {
    if n > 0 {
      CauchyLabels(n - 1);
      NextNth(n - 1);
    }
  }

  lemma NextNth(n: nat)
    ensures NextLabel(256, CauchyStrategy, NthLabel(n)) == NthLabel(n + 1)
  {
    var g := n / 128;
    if n % 128 == 127 {
      assert n + 1 == 128 * (g + 1);
      assert (g % 256 + 1) % 256 == (g + 1) % 256;
    } else {
      assert (n + 1) / 128 == g && (n + 1) % 128 == n % 128 + 1;
    }
  }

  lemma {:induction false} CauchyLabels16(n: nat)
    ensures LabelAfter(16, CauchyStrategy, n) == NthLabel16(n)
  {
    if n > 0 {
      CauchyLabels16(n - 1);
      NextNth16(n - 1);
    }
  }

  lemma NextNth16(n: nat)
    ensures NextLabel(16, CauchyStrategy, NthLabel16(n)) == NthLabel16(n + 1)
  {
    var g := n / 7;
    if n % 7 == 6 {
      assert n + 1 == 7 * (g + 1);
      assert (g % 256 + 1) % 256 == (g + 1) % 256;
    } else {
      assert (n + 1) / 7 == g && (n + 1) % 7 == n % 7 + 1;
    }
  }

  // Vandermonde ids run from 1 to order - 2 and around; zero, which makes all coefficients one, is left out.
  lemma {:induction false} VandermondeLabels(order: nat, n: nat)
    requires order > 2
    ensures LabelAfter(order, VandermondeStrategy, n) == Label(1 + n % (order - 2), 0)
  {
    if n > 0 {
      VandermondeLabels(order, n - 1);
      NextRemainder(n, order - 2);
    }
  }

  lemma NextRemainder(n: nat, m: nat)
    requires n > 0 && m > 0
    ensures n % m == if (n - 1) % m == m - 1 then 0 else (n - 1) % m + 1
  {
    var q, r := (n - 1) / m, (n - 1) % m;
    assert n - 1 == m * q + r;
    if r == m - 1 {
      assert n == m * (q + 1) + 0 by {
        assert m * (q + 1) == m * q + m;
      }
      LogTables.Remainder(n, q + 1, 0, m);
    } else {
      LogTables.Remainder(n, q, r + 1, m);
    }
  }

  // ---------------------------------------------------------------- source points of a window

  lemma NearDiffer(a: nat, b: nat, m: nat)
    requires a < b < a + m
    ensures a % m != b % m
  {
    var d := b / m - a / m;
    assert a == m * (a / m) + a % m && b == m * (b / m) + b % m;
    assert m * d == m * (b / m) - m * (a / m);
    LogTables.Multiple(m, d);
  }

  // A window without holes and no longer than the cycle has different Cauchy points throughout.
  lemma WindowPointsDiffer<T>(w: Window<T>, m: nat)
    requires m > 0 && Adjacent(w.symbols) && |w.symbols| <= m
    ensures DistinctMod(IdsOf(w.symbols), m)
  {
    var ids := IdsOf(w.symbols);
    forall i, j | 0 <= i < j < |ids| ensures ids[i] % m != ids[j] % m {
      AdjacentIds(w.symbols, i);
      AdjacentIds(w.symbols, j);
      NearDiffer(ids[i], ids[j], m);
    }
  }

  // A window that kept 0 while the symbols after it were acknowledged holds 0 and 128 together,
  // however short it is: their points are the same.
  lemma ThinnedWindowCollides<T(!new)>(w: Window<T>, ids: seq<nat>, data: seq<T>)
    requires Orderly(w) && Contains(w, 0) && w.nextId == 128 && 0 !in ids
    ensures var r := Pushed(Without(w, ids), data);
            Contains(r, 0) && Contains(r, 128) && SourcePoint(256, 0) == SourcePoint(256, 128)
  {
    Membership(w, data, ids, 0);
    OrderlyKept(w, data, ids);
    Membership(Without(w, ids), data, [], 0);
    Membership(Without(w, ids), data, [], 128);
  }

  // ---------------------------------------------------------------- one coded packet

  function MakeVector<T>(c: EncoderConfig<T>, at: Label, cover: seq<nat>): EncodingVector<T> {
    match c.strategy
    case VandermondeStrategy => EncodingVector(at.codedId, 0, cover, [])
    case CauchyStrategy =>
      EncodingVector(at.codedId, at.generation, cover, CauchyBatch(c.F, cover, at.codedId, at.generation))
  }

  ghost predicate Holds<T>(c: EncoderConfig<T>, w: Window<T>, ids: seq<nat>) {
    forall i :: 0 <= i < |ids| ==> Lookup(w, ids[i]).Some? && |Lookup(w, ids[i]).value| == c.symbolSize
  }

  // The accumulator after n ids of the cover.
  ghost function PartPayload<T>(c: EncoderConfig<T>, w: Window<T>, ev: EncodingVector<T>, n: nat): (r: seq<T>)
    requires c.F.order > 1 && Equations.WellFormed(ev) && n <= |ev.ids| && Holds(c, w, ev.ids)
    ensures |r| == c.symbolSize
  {
    if n == 0 then Zeros(c.F, c.symbolSize)
    else
      var before, coef := PartPayload(c, w, ev, n - 1), CoefAt(c.F, ev, n - 1);
      if coef == c.F.zero then before else MulAcc(c.F, before, Lookup(w, ev.ids[n - 1]).value, coef)
  }

  ghost function MakePacket<T>(c: EncoderConfig<T>, st: EncoderState<T>, cover: seq<nat>): Packet<T>
    requires c.F.order > 1 && Holds(c, st.window, cover)
  {
    var ev := MakeVector(c, st.at, cover);
    CodedPacket(ev, PartPayload(c, st.window, ev, |cover|))
  }

  ghost function Emit<T>(c: EncoderConfig<T>, st: EncoderState<T>, cover: seq<nat>): (o: Output<T>)
    requires c.F.order > 1 && Holds(c, st.window, cover)
    ensures o.state.window == st.window && o.state.receivers == st.receivers
  {
    if cover == [] then Output(st, [])
    else Output(st.(at := NextLabel(c.F.order, c.strategy, st.at), used := st.used + 1), [MakePacket(c, st, cover)])
  }

  // ---------------------------------------------------------------- covers

  function IdsOf<T>(symbols: seq<Symbol<T>>): (r: seq<nat>)
    ensures |r| == |symbols| && forall i :: 0 <= i < |r| ==> r[i] == symbols[i].id
  {
    seq(|symbols|, i requires 0 <= i < |symbols| => symbols[i].id)
  }

  // The ids the caller asked for that are in the window: in the caller's order, as often as listed.
  function Asked(window: seq<nat>, ids: seq<nat>): (r: seq<nat>)
    ensures forall id :: id in r <==> id in ids && id in window
  {
    if ids == [] then []
    else
      var init, last := ids[..|ids| - 1], ids[|ids| - 1];
      assert forall id :: id in ids <==> id in init || id == last;
      if last in window then Asked(window, init) + [last] else Asked(window, init)
  }

  function Recent(window: seq<nat>, n: nat): seq<nat> {
    if n < |window| then window[|window| - n..] else window
  }

  // The ids of the window that the receiver has not acknowledged.
  function Missing(receivers: Acks.Receivers, rid: nat, window: seq<nat>): (r: seq<nat>)
    ensures forall id :: id in r <==> id in window && !Acks.IsAcked(receivers, rid, id)
  {
    if window == [] then []
    else
      var init, last := window[..|window| - 1], window[|window| - 1];
      assert forall id :: id in window <==> id in init || id == last;
      if Acks.IsAcked(receivers, rid, last) then Missing(receivers, rid, init)
      else Missing(receivers, rid, init) + [last]
  }

  lemma {:induction false} FindsInWindow<T>(c: EncoderConfig<T>, w: Window<T>, ids: seq<nat>)
    requires Sane(c, w) && forall id :: id in ids ==> id in IdsOf(w.symbols)
    ensures Holds(c, w, ids)
  {
    forall k | 0 <= k < |ids| ensures Lookup(w, ids[k]).Some? && |Lookup(w, ids[k]).value| == c.symbolSize {
      assert ids[k] in ids;
      var i :| 0 <= i < |w.symbols| && IdsOf(w.symbols)[i] == ids[k];
      GetIs(w, i);
    }
  }

  datatype Choice = Everything | Listed(ids: seq<nat>) | MostRecent(n: nat) | Unacked(rid: nat)

  function CoverOf<T>(st: EncoderState<T>, choice: Choice): (r: seq<nat>)
    ensures forall id :: id in r ==> id in IdsOf(st.window.symbols)
  {
    var ids := IdsOf(st.window.symbols);
    match choice
    case Everything => ids
    case Listed(asked) => Asked(ids, asked)
    case MostRecent(n) => Recent(ids, n)
    case Unacked(rid) => Missing(st.receivers, rid, ids)
  }

  // generate_coded and its variants; nothing is sent for an empty cover.
  ghost function Generate<T>(c: EncoderConfig<T>, st: EncoderState<T>, choice: Choice): (o: Output<T>)
    requires c.F.order > 1 && Sane(c, st.window)
    ensures o.state.window == st.window && o.state.receivers == st.receivers
  {
    var cover := CoverOf(st, choice);
    FindsInWindow(c, st.window, cover);
    Emit(c, st, cover)
  }

  ghost function Burst<T>(c: EncoderConfig<T>, st: EncoderState<T>, n: nat): (o: Output<T>)
    requires c.F.order > 1 && Sane(c, st.window)
    ensures o.state.window == st.window && o.state.fecCalls == st.fecCalls && o.state.receivers == st.receivers
  {
    if n == 0 then Output(st, [])
    else
      var before := Burst(c, st, n - 1);
      var last := Generate(c, before.state, Everything);
      Output(last.state, before.packets + last.packets)
  }

  // ---------------------------------------------------------------- submission and feedback

  ghost function MakeRoom<T>(c: EncoderConfig<T>, w: Window<T>): Window<T> {
    if |w.symbols| >= c.capacity then Evicted(w) else w
  }

  lemma MakeRoomSane<T(!new)>(c: EncoderConfig<T>, w: Window<T>, data: seq<T>)
    requires Sane(c, w)
    ensures Sane(c, MakeRoom(c, w))
    ensures |data| == c.symbolSize ==> Sane(c, Pushed(MakeRoom(c, w), data))
  {
    OrderlyKept(w, data, []);
    OrderlyKept(MakeRoom(c, w), data, []);
  }

  lemma WithoutSane<T(!new)>(c: EncoderConfig<T>, w: Window<T>, ids: seq<nat>)
    requires Sane(c, w)
    ensures |Without(w, ids).symbols| <= |w.symbols| && Sane(c, Without(w, ids))
  {
    OrderlyKept(w, [], ids);
    forall i | 0 <= i < |Without(w, ids).symbols| ensures |Without(w, ids).symbols[i].data| == c.symbolSize {
      assert Without(w, ids).symbols[i] in w.symbols;
    }
  }

  // The packets that the rate controller asks for on its n-th call, from zero.
  ghost function Redundancy<T>(c: EncoderConfig<T>, n: nat): nat
    requires c.denom > 0
  {
    NothingLost(c.numer, c.denom, n + 1);
    TotalAfter(c.numer, c.denom, n + 1) - TotalAfter(c.numer, c.denom, n)
  }

  ghost function PushedState<T>(c: EncoderConfig<T>, st: EncoderState<T>, data: seq<T>): EncoderState<T> {
    st.(window := Pushed(MakeRoom(c, st.window), data), fecCalls := st.fecCalls + 1)
  }

  ghost function Launch<T>(c: EncoderConfig<T>, pushed: EncoderState<T>, id: nat, data: seq<T>, n: nat): Output<T>
    requires c.F.order > 1 && Sane(c, pushed.window)
  {
    var o := Burst(c, pushed, n);
    Output(o.state, [SourcePacket(id, data)] + o.packets)
  }

  ghost function Submit<T(!new)>(c: EncoderConfig<T>, st: EncoderState<T>, data: seq<T>): Submission<T>
    requires c.F.order > 1 && c.denom > 0 && Sane(c, st.window)
  {
    if |data| != c.symbolSize then SymbolSizeMismatch
    else if |st.window.symbols| >= c.capacity && c.backpressure == Reject then WindowFull
    else
      MakeRoomSane(c, st.window, data);
      Accepted(Launch(c, PushedState(c, st, data), st.window.nextId, data, Redundancy(c, st.fecCalls)))
  }

  ghost function Acknowledge<T(!new)>(
    c: EncoderConfig<T>, st: EncoderState<T>, rid: nat, pkt: F.FeedbackPacket): EncoderState<T> {
    var receivers := st.receivers[rid := Acks.Updated(Acks.EntryOf(st.receivers, rid), pkt)];
    var gone := Acks.SymbolsToRemove(c.policy, receivers, IdsOf(st.window.symbols));
    st.(receivers := receivers, window := Without(st.window, gone))
  }
}
