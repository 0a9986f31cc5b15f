// Whole sessions of the encoder: the stream it sends, and where every symbol it accepted ends up.

module Sessions {
  import opened Fields
  import opened Keys
  import opened Rows
  import opened Elimination
  import opened Equations
  import opened Coefficients
  import opened Recovery
  import opened Windows
  import opened Decoding
  import opened Exactness
  import opened Streams
  import opened Guarantees
  import opened Duplicates
  import opened Encoding
  import Acks
  import F = Feedback

  datatype Op<T> =
    | Submitting(data: seq<T>)
    | Generating(choice: Choice)
    | Hearing(rid: nat, pkt: F.FeedbackPacket)

  // The encoder's state; and of its past: the packets sent, the data accepted in order, the ids
  // evicted to make room and the ids dropped by the window policy.
  datatype Session<T> = Session(
    state: EncoderState<T>, log: seq<Packet<T>>, sources: seq<seq<T>>, evicted: set<nat>, removed: set<nat>)

  ghost predicate Built<T(!new)>(c: EncoderConfig<T>) {
    && IsField(c.F) && c.F.order > 2 && c.symbolSize > 0 && c.capacity > 0 && c.denom > 0
  }

  ghost function Opening<T>(c: EncoderConfig<T>): Session<T> {
    Session(EncoderState(Window([], 0, true), FirstLabel(c.strategy), 0, 0, map[]), [], [], {}, {})
  }

  // The id that a submission evicts, if any.
  ghost function Displaced<T>(c: EncoderConfig<T>, w: Window<T>): set<nat> {
    if |w.symbols| >= c.capacity && w.symbols != [] then {w.symbols[0].id} else {}
  }

  ghost function WindowIds<T>(w: Window<T>): set<nat> {
    set i | 0 <= i < |w.symbols| :: w.symbols[i].id
  }

  ghost function Apply<T(!new)>(c: EncoderConfig<T>, s: Session<T>, op: Op<T>): Session<T>
    requires Built(c) && Sane(c, s.state.window)
  {
    match op
    case Submitting(data) =>
      var r := Submit(c, s.state, data);
      if r.Accepted? then
        Session(r.out.state, s.log + r.out.packets, s.sources + [data],
                s.evicted + Displaced(c, s.state.window), s.removed)
      else s
    case Generating(choice) =>
      var o := Generate(c, s.state, choice);
      s.(state := o.state, log := s.log + o.packets)
    case Hearing(rid, pkt) =>
      var st := Acknowledge(c, s.state, rid, pkt);
      s.(state := st, removed := s.removed + (WindowIds(s.state.window) - WindowIds(st.window)))
  }

  lemma ApplySane<T(!new)>(c: EncoderConfig<T>, s: Session<T>, op: Op<T>)
    requires Built(c) && Sane(c, s.state.window)
    ensures Sane(c, Apply(c, s, op).state.window)
  {
    match op
    case Submitting(data) =>
      MakeRoomSane(c, s.state.window, data);
    case Generating(_) =>
    case Hearing(rid, pkt) =>
      var receivers := s.state.receivers[rid := Acks.Updated(Acks.EntryOf(s.state.receivers, rid), pkt)];
      WithoutSane(c, s.state.window, Acks.SymbolsToRemove(c.policy, receivers, IdsOf(s.state.window.symbols)));
  }

  ghost function After<T(!new)>(c: EncoderConfig<T>, ops: seq<Op<T>>): (s: Session<T>)
    requires Built(c)
    ensures Sane(c, s.state.window)
  {
    if ops == [] then Opening(c)
    else
      var before := After(c, ops[..|ops| - 1]);
      ApplySane(c, before, ops[|ops| - 1]);
      Apply(c, before, ops[|ops| - 1])
  }

  // ---------------------------------------------------------------- where symbols end up

  // Each id accepted is in exactly one place.
  ghost predicate Placed<T>(s: Session<T>, id: nat) {
    var w := s.state.window;
    && (id < w.nextId <==> Contains(w, id) || id in s.evicted || id in s.removed)
    && !(Contains(w, id) && id in s.evicted)
    && !(Contains(w, id) && id in s.removed)
    && !(id in s.evicted && id in s.removed)
  }

  lemma ContainsIds<T>(w: Window<T>, id: nat)
    ensures Contains(w, id) <==> id in WindowIds(w)
    ensures Contains(w, id) <==> id in IdsOf(w.symbols)
  {
    if Contains(w, id) {
      var s :| s in w.symbols && s.id == id;
      var i :| 0 <= i < |w.symbols| && w.symbols[i] == s;
      assert IdsOf(w.symbols)[i] == id;
    }
  }

  lemma ApplyPlaced<T(!new)>(c: EncoderConfig<T>, s: Session<T>, op: Op<T>, id: nat)
    requires Built(c) && Sane(c, s.state.window) && Placed(s, id)
    ensures Placed(Apply(c, s, op), id)
  {
    var w := s.state.window;
    match op
    case Submitting(data) =>
      SubmitPlaced(c, s, data, id);
    case Generating(_) =>
    case Hearing(rid, pkt) =>
      var receivers := s.state.receivers[rid := Acks.Updated(Acks.EntryOf(s.state.receivers, rid), pkt)];
      var gone := Acks.SymbolsToRemove(c.policy, receivers, IdsOf(w.symbols));
      Membership(w, [], gone, id);
      ContainsIds(w, id);
      ContainsIds(Without(w, gone), id);
  }

  lemma SubmitPlaced<T(!new)>(c: EncoderConfig<T>, s: Session<T>, data: seq<T>, id: nat)
    requires Built(c) && Sane(c, s.state.window) && Placed(s, id)
    ensures Placed(Apply(c, s, Submitting(data)), id)
  {
    if Submit(c, s.state, data).Accepted? {
      var r := Roomy(c, s);
      RoomyPlaced(c, s, id);
      Membership(r.state.window, data, [], id);
      assert Apply(c, s, Submitting(data)).state.window == Pushed(r.state.window, data);
    }
  }

  // The session once room is made for one more symbol.
  ghost function Roomy<T>(c: EncoderConfig<T>, s: Session<T>): Session<T> {
    s.(state := s.state.(window := MakeRoom(c, s.state.window)), evicted := s.evicted + Displaced(c, s.state.window))
  }

  lemma RoomyPlaced<T(!new)>(c: EncoderConfig<T>, s: Session<T>, id: nat)
    requires Built(c) && Sane(c, s.state.window) && Placed(s, id)
    ensures Placed(Roomy(c, s), id) && Orderly(Roomy(c, s).state.window)
  {
    var w := s.state.window;
    Membership(w, [], [], id);
    OrderlyKept(w, [], []);
    if |w.symbols| >= c.capacity {
      assert w.symbols[0] in w.symbols;
      assert Contains(w, w.symbols[0].id);
    }
  }

  // In every session each id below the next is in the window, evicted as oldest, or dropped by
  // the policy: exactly one of the three.
  lemma {:induction false} EverySymbolPlaced<T(!new)>(c: EncoderConfig<T>, ops: seq<Op<T>>, id: nat)
    requires Built(c)
    ensures Placed(After(c, ops), id)
  {
    if ops != [] {
      EverySymbolPlaced(c, ops[..|ops| - 1], id);
      ApplyPlaced(c, After(c, ops[..|ops| - 1]), ops[|ops| - 1], id);
    }
  }

  // ---------------------------------------------------------------- payloads

  // The data of the covered symbols at one position.
  ghost predicate Reads<T>(c: EncoderConfig<T>, w: Window<T>, ids: seq<nat>, x: Assignment<T>, p: nat)
    requires Holds(c, w, ids) && p < c.symbolSize
  {
    forall i :: 0 <= i < |ids| ==> x(ids[i]) == Lookup(w, ids[i]).value[p]
  }

  // The encoder's loop computes the sum that the encoding vector describes.
  lemma {:induction false} PayloadIsSum<T(!new)>(
    c: EncoderConfig<T>, w: Window<T>, ev: EncodingVector<T>, n: nat, x: Assignment<T>, p: nat)
    requires IsField(c.F) && c.F.order > 1 && Equations.WellFormed(ev) && n <= |ev.ids|
    requires Holds(c, w, ev.ids) && p < c.symbolSize && Reads(c, w, ev.ids, x, p)
    ensures PartPayload(c, w, ev, n)[p] == EvSum(c.F, ev, x, n)
  {
    if n > 0 {
      PayloadIsSum(c, w, ev, n - 1, x, p);
    }
  }

  lemma VectorFormed<T>(c: EncoderConfig<T>, at: Label, cover: seq<nat>)
    ensures Equations.WellFormed(MakeVector(c, at, cover)) && MakeVector(c, at, cover).ids == cover
  {
  }

  // The coefficient of each id under a label.
  ghost function Coefficient<T>(c: EncoderConfig<T>, at: Label): nat -> T
    requires c.F.order > 1
  {
    match c.strategy
    case VandermondeStrategy => (id: nat) => Vandermonde(c.F, id, at.codedId)
    case CauchyStrategy => (id: nat) => Cauchy(c.F, id, at.codedId, at.generation)
  }

  lemma VectorById<T(!new)>(c: EncoderConfig<T>, at: Label, cover: seq<nat>)
    requires c.F.order > 1
    ensures ById(c.F, MakeVector(c, at, cover), Coefficient(c, at))
  {
  }

  lemma CoefficientNonzero<T(!new)>(c: EncoderConfig<T>, at: Label, id: nat)
    requires IsGenerated(c.F)
    ensures Coefficient(c, at)(id) != c.F.zero
  {
    match c.strategy
    case CauchyStrategy => CauchyNonzero(c.F, id, at.codedId, at.generation);
    case VandermondeStrategy => PowersOf(c.F, id * at.codedId % (c.F.order - 1), 0);
  }

  // A packet over ids each listed an odd number of times is an equation that holds of the symbols
  // in the window.
  lemma PacketHolds<T(!new)>(c: EncoderConfig<T>, st: EncoderState<T>, cover: seq<nat>, x: Assignment<T>, p: nat)
    requires IsField(c.F) && c.F.order > 1 && Holds(c, st.window, cover) && AllOdd(cover)
    requires p < c.symbolSize && Reads(c, st.window, cover, x, p)
    ensures var k := MakePacket(c, st, cover);
            EquationHolds(c.F, k.ev, k.payload, x, p)
  {
    var ev := MakeVector(c, st.at, cover);
    VectorFormed(c, st.at, cover);
    PayloadIsSum(c, st.window, ev, |cover|, x, p);
    VectorById(c, st.at, cover);
    OddAgrees(c.F, ev, Coefficient(c, st.at), x);
    DecoderSumMeans(c.F, ev, PartPayload(c, st.window, ev, |cover|), x, p);
  }

  // ---------------------------------------------------------------- covers without repetition

  lemma {:induction false} AskedDistinct(window: seq<nat>, ids: seq<nat>)
    requires Distinct(ids)
    ensures Distinct(Asked(window, ids))
  {
    if ids != [] {
      var init, last := ids[..|ids| - 1], ids[|ids| - 1];
      assert forall i :: 0 <= i < |init| ==> init[i] == ids[i] && init[..i] == ids[..i];
      AskedDistinct(window, init);
      assert last !in init;
      Append(Asked(window, init), last);
    }
  }

  lemma {:induction false} MissingDistinct(receivers: Acks.Receivers, rid: nat, window: seq<nat>)
    requires Distinct(window)
    ensures Distinct(Missing(receivers, rid, window))
  {
    if window != [] {
      var init, last := window[..|window| - 1], window[|window| - 1];
      assert forall i :: 0 <= i < |init| ==> init[i] == window[i] && init[..i] == window[..i];
      MissingDistinct(receivers, rid, init);
      assert last !in init;
      Append(Missing(receivers, rid, init), last);
    }
  }

  lemma RecentDistinct(window: seq<nat>, n: nat)
    requires Distinct(window)
    ensures Distinct(Recent(window, n))
  {
    if n < |window| {
      var k := |window| - n;
      var r := window[k..];
      forall i | 0 <= i < |r| ensures r[i] !in r[..i] {
        assert r[..i] == window[k..k + i];
        assert window[k + i] !in window[..k + i];
        assert window[..k + i] == window[..k] + window[k..k + i];
      }
    }
  }

  lemma WindowDistinct<T>(w: Window<T>)
    requires Orderly(w)
    ensures Distinct(IdsOf(w.symbols))
  {
  }

  ghost predicate PlainChoice(choice: Choice) {
    choice.Listed? ==> Distinct(choice.ids)
  }

  lemma CoverDistinct<T>(st: EncoderState<T>, choice: Choice)
    requires Orderly(st.window) && PlainChoice(choice)
    ensures Distinct(CoverOf(st, choice))
  {
    var ids := IdsOf(st.window.symbols);
    WindowDistinct(st.window);
    match choice
    case Everything =>
    case Listed(asked) => AskedDistinct(ids, asked);
    case MostRecent(n) => RecentDistinct(ids, n);
    case Unacked(rid) => MissingDistinct(st.receivers, rid, ids);
  }

  lemma AskedOne(window: seq<nat>, init: seq<nat>, last: nat, id: nat)
    ensures var r, before := Asked(window, init + [last]), Asked(window, init);
            Times(r, |r|, id) == Times(before, |before|, id) + if last in window && last == id then 1 else 0
  {
    assert (init + [last])[..|init|] == init;
    TimesPrefix(Asked(window, init), [last], |Asked(window, init)|, id);
  }

  // The window keeps or drops all mentions of an id.
  lemma {:induction false} AskedTimes(window: seq<nat>, ids: seq<nat>, n: nat, id: nat)
    requires n <= |ids|
    ensures var r := Asked(window, ids[..n]);
            Times(r, |r|, id) == if id in window then Times(ids, n, id) else 0
  {
    if n > 0 {
      AskedTimes(window, ids, n - 1, id);
      assert ids[..n] == ids[..n - 1] + [ids[n - 1]];
      AskedOne(window, ids[..n - 1], ids[n - 1], id);
    }
  }

  lemma AskedOdd(window: seq<nat>, ids: seq<nat>)
    requires AllOdd(ids)
    ensures AllOdd(Asked(window, ids))
  {
    var r := Asked(window, ids);
    assert ids[..|ids|] == ids;
    forall id | id in r ensures Times(r, |r|, id) % 2 == 1 {
      AskedTimes(window, ids, |ids|, id);
    }
  }

  // The caller lists every id an odd number of times, so that encoder and decoder agree.
  ghost predicate CleanChoice(choice: Choice) {
    choice.Listed? ==> AllOdd(choice.ids)
  }

  lemma CoverOdd<T>(st: EncoderState<T>, choice: Choice)
    requires Orderly(st.window) && CleanChoice(choice)
    ensures AllOdd(CoverOf(st, choice))
  {
    if choice.Listed? {
      AskedOdd(IdsOf(st.window.symbols), choice.ids);
    } else {
      CoverDistinct(st, choice);
      DistinctOdd(CoverOf(st, choice));
    }
  }

  // ---------------------------------------------------------------- the stream

  ghost predicate Continues<T>(X: Sources<T>, sources: seq<seq<T>>) {
    forall i :: 0 <= i < |sources| ==> X(i) == sources[i]
  }

  ghost predicate Matches<T>(c: EncoderConfig<T>, dc: Config<T>) {
    dc.F == c.F && dc.symbolSize == c.symbolSize
  }

  // The window holds what was accepted, and the log is a stream of it.
  ghost predicate Faithful<T(!new)>(c: EncoderConfig<T>, dc: Config<T>, X: Sources<T>, s: Session<T>) {
    && Sane(c, s.state.window)
    && s.state.window.nextId == |s.sources| == SourceCount(s.log)
    && (forall i :: 0 <= i < |s.state.window.symbols| ==>
          s.state.window.symbols[i].data == X(s.state.window.symbols[i].id))
    && IsStream(dc, X, s.log)
  }

  lemma AppendPacket<T(!new)>(dc: Config<T>, X: Sources<T>, log: seq<Packet<T>>, packet: Packet<T>)
    requires IsStream(dc, X, log) && Streams.Follows(dc, X, log, packet)
    ensures IsStream(dc, X, log + [packet])
    ensures SourceCount(log + [packet]) == SourceCount(log) + if packet.SourcePacket? then 1 else 0
  {
    var longer := log + [packet];
    assert longer[..|log|] == log;
    forall i | 0 <= i < |longer| ensures Streams.Follows(dc, X, longer[..i], longer[i]) {
      if i < |log| {
        assert longer[..i] == log[..i];
      }
    }
  }

  lemma WindowReads<T(!new)>(c: EncoderConfig<T>, X: Sources<T>, w: Window<T>, ids: seq<nat>, p: nat)
    requires Sane(c, w) && Holds(c, w, ids) && p < c.symbolSize
    requires forall i :: 0 <= i < |w.symbols| ==> w.symbols[i].data == X(w.symbols[i].id)
    ensures Reads(c, w, ids, Column(c.F, X, p), p)
  {
    forall k | 0 <= k < |ids| ensures Column(c.F, X, p)(ids[k]) == Lookup(w, ids[k]).value[p] {
      GetIsScan(w, ids[k]);
      assert Symbol(ids[k], Lookup(w, ids[k]).value) in w.symbols;
    }
  }

  lemma EmitFollows<T(!new)>(c: EncoderConfig<T>, dc: Config<T>, X: Sources<T>, s: Session<T>, cover: seq<nat>)
    requires Built(c) && Matches(c, dc) && Faithful(c, dc, X, s)
    requires Holds(c, s.state.window, cover) && AllOdd(cover)
    requires forall id :: id in cover ==> id in IdsOf(s.state.window.symbols)
    ensures Streams.Follows(dc, X, s.log, MakePacket(c, s.state, cover))
  {
    var k := MakePacket(c, s.state, cover);
    VectorFormed(c, s.state.at, cover);
    forall p: nat | p < dc.symbolSize ensures EquationHolds(dc.F, k.ev, k.payload, Column(dc.F, X, p), p) {
      WindowReads(c, X, s.state.window, cover, p);
      PacketHolds(c, s.state, cover, Column(c.F, X, p), p);
    }
  }

  lemma GenerateFaithful<T(!new)>(c: EncoderConfig<T>, dc: Config<T>, X: Sources<T>, s: Session<T>, choice: Choice)
    requires Built(c) && Matches(c, dc) && Faithful(c, dc, X, s) && CleanChoice(choice)
    ensures Faithful(c, dc, X, Apply(c, s, Generating(choice)))
  {
    var cover := CoverOf(s.state, choice);
    FindsInWindow(c, s.state.window, cover);
    CoverOdd(s.state, choice);
    if cover != [] {
      EmitFollows(c, dc, X, s, cover);
      AppendPacket(dc, X, s.log, MakePacket(c, s.state, cover));
    } else {
      assert s.log + [] == s.log;
    }
  }

  ghost function Bursted<T>(c: EncoderConfig<T>, s: Session<T>, n: nat): (r: Session<T>)
    requires c.F.order > 1 && Sane(c, s.state.window)
    ensures Sane(c, r.state.window)
  {
    var o := Burst(c, s.state, n);
    s.(state := o.state, log := s.log + o.packets)
  }

  lemma BurstStep<T(!new)>(c: EncoderConfig<T>, s: Session<T>, n: nat)
    requires Built(c) && Sane(c, s.state.window) && n > 0
    ensures Bursted(c, s, n) == Apply(c, Bursted(c, s, n - 1), Generating(Everything))
  {
    var before := Burst(c, s.state, n - 1);
    var last := Generate(c, before.state, Everything);
    assert s.log + before.packets + last.packets == s.log + (before.packets + last.packets);
  }

  lemma NoBurst<T(!new)>(c: EncoderConfig<T>, s: Session<T>, n: nat)
    requires Built(c) && Sane(c, s.state.window) && n == 0
    ensures Bursted(c, s, n) == s
  {
    assert s.log + [] == s.log;
  }

  // What one more full-window packet keeps.
  ghost predicate Kept<T(!new)>(c: EncoderConfig<T>, holds: Session<T> -> bool)
    requires Built(c)
  {
    forall s: Session<T> {:trigger Apply(c, s, Generating(Everything))} ::
      Sane(c, s.state.window) && holds(s) ==> holds(Apply(c, s, Generating(Everything)))
  }

  lemma KeptOnce<T(!new)>(c: EncoderConfig<T>, before: Session<T>, later: Session<T>, holds: Session<T> -> bool)
    requires Built(c) && Sane(c, before.state.window) && holds(before) && Kept(c, holds)
    requires later == Apply(c, before, Generating(Everything))
    ensures holds(later)
  {
  }

  ghost predicate Hereditary(holds: nat -> bool, k: nat) {
    holds(k) ==> holds(k + 1)
  }

  lemma {:induction false} Inductively(holds: nat -> bool, n: nat)
    requires holds(0) && forall k: nat :: Hereditary(holds, k)
    ensures holds(n)
  {
    if n > 0 {
      Inductively(holds, n - 1);
      assert Hereditary(holds, n - 1);
    }
  }

  // A burst adds one packet after the other.
  lemma BurstKept<T(!new)>(c: EncoderConfig<T>, s: Session<T>, n: nat, holds: Session<T> -> bool)
    requires Built(c) && Sane(c, s.state.window) && holds(s) && Kept(c, holds)
    ensures holds(Bursted(c, s, n))
  {
    var after := (k: nat) => holds(Bursted(c, s, k));
    NoBurst(c, s, 0);
    forall k: nat ensures Hereditary(after, k) {
      if after(k) {
        BurstStep(c, s, k + 1);
        KeptOnce(c, Bursted(c, s, k), Bursted(c, s, k + 1), holds);
      }
    }
    Inductively(after, n);
  }

  lemma BurstFaithful<T(!new)>(c: EncoderConfig<T>, dc: Config<T>, X: Sources<T>, s: Session<T>, n: nat)
    requires Built(c) && Matches(c, dc) && Faithful(c, dc, X, s)
    ensures Faithful(c, dc, X, Bursted(c, s, n))
  {
    forall t: Session<T> | Sane(c, t.state.window) && Faithful(c, dc, X, t)
      ensures Faithful(c, dc, X, Apply(c, t, Generating(Everything)))
    {
      GenerateFaithful(c, dc, X, t, Everything);
    }
    BurstKept(c, s, n, t => Faithful(c, dc, X, t));
  }

  // The session between the push and the coded packets that follow it.
  ghost function MidSubmit<T>(c: EncoderConfig<T>, s: Session<T>, data: seq<T>): Session<T> {
    var w := s.state.window;
    Session(s.state.(window := Pushed(MakeRoom(c, w), data), fecCalls := s.state.fecCalls + 1),
            s.log + [SourcePacket(w.nextId, data)], s.sources + [data], s.evicted + Displaced(c, w), s.removed)
  }

  lemma MidFaithful<T(!new)>(c: EncoderConfig<T>, dc: Config<T>, X: Sources<T>, s: Session<T>, data: seq<T>)
    requires Built(c) && Matches(c, dc) && Faithful(c, dc, X, s)
    requires |data| == c.symbolSize && data == X(s.state.window.nextId)
    ensures Faithful(c, dc, X, MidSubmit(c, s, data))
  {
    var w := s.state.window;
    MakeRoomSane(c, w, data);
    AppendPacket(dc, X, s.log, SourcePacket(w.nextId, data));
  }

  lemma LogsJoin<T>(log: seq<Packet<T>>, first: Packet<T>, more: seq<Packet<T>>)
    ensures log + ([first] + more) == log + [first] + more
  {
  }

  lemma SubmitIsBurst<T(!new)>(c: EncoderConfig<T>, s: Session<T>, data: seq<T>)
    requires Built(c) && Sane(c, s.state.window) && Submit(c, s.state, data).Accepted?
    ensures Sane(c, MidSubmit(c, s, data).state.window)
    ensures Apply(c, s, Submitting(data)) == Bursted(c, MidSubmit(c, s, data), Redundancy(c, s.state.fecCalls))
  {
    var mid, n := MidSubmit(c, s, data), Redundancy(c, s.state.fecCalls);
    MakeRoomSane(c, s.state.window, data);
    LogsJoin(s.log, SourcePacket(s.state.window.nextId, data), Burst(c, mid.state, n).packets);
  }

  lemma SubmitFaithful<T(!new)>(c: EncoderConfig<T>, dc: Config<T>, X: Sources<T>, s: Session<T>, data: seq<T>)
    requires Built(c) && Matches(c, dc) && Faithful(c, dc, X, s)
    requires Submit(c, s.state, data).Accepted? ==> data == X(s.state.window.nextId)
    ensures Faithful(c, dc, X, Apply(c, s, Submitting(data)))
  {
    if Submit(c, s.state, data).Accepted? {
      MidFaithful(c, dc, X, s, data);
      SubmitIsBurst(c, s, data);
      BurstFaithful(c, dc, X, MidSubmit(c, s, data), Redundancy(c, s.state.fecCalls));
    }
  }

  lemma HearFaithful<T(!new)>(
    c: EncoderConfig<T>, dc: Config<T>, X: Sources<T>, s: Session<T>, rid: nat, pkt: F.FeedbackPacket)
    requires Built(c) && Faithful(c, dc, X, s)
    ensures Faithful(c, dc, X, Apply(c, s, Hearing(rid, pkt)))
  {
    var w := s.state.window;
    var receivers := s.state.receivers[rid := Acks.Updated(Acks.EntryOf(s.state.receivers, rid), pkt)];
    var gone := Acks.SymbolsToRemove(c.policy, receivers, IdsOf(w.symbols));
    WithoutSane(c, w, gone);
    forall i | 0 <= i < |Without(w, gone).symbols|
      ensures Without(w, gone).symbols[i].data == X(Without(w, gone).symbols[i].id)
    {
      assert Without(w, gone).symbols[i] in w.symbols;
    }
  }

  ghost predicate CleanOps<T>(ops: seq<Op<T>>) {
    forall i :: 0 <= i < |ops| && ops[i].Generating? ==> CleanChoice(ops[i].choice)
  }

  // Whatever is submitted, generated and heard, the packets sent are a stream of what was accepted.
  lemma {:induction false} SessionFaithful<T(!new)>(c: EncoderConfig<T>, dc: Config<T>, X: Sources<T>, ops: seq<Op<T>>)
    requires Built(c) && Matches(c, dc) && CleanOps(ops) && Continues(X, After(c, ops).sources)
    ensures Faithful(c, dc, X, After(c, ops))
  {
    if ops != [] {
      var init, op := ops[..|ops| - 1], ops[|ops| - 1];
      var s := After(c, init);
      assert s.sources <= After(c, ops).sources;
      assert Continues(X, s.sources) by {
        assert forall i :: 0 <= i < |s.sources| ==> s.sources[i] == After(c, ops).sources[i];
      }
      assert forall i :: 0 <= i < |init| ==> init[i] == ops[i];
      SessionFaithful(c, dc, X, init);
      match op
      case Submitting(data) =>
        assert Submit(c, s.state, data).Accepted? ==> After(c, ops).sources[|s.sources|] == data;
        SubmitFaithful(c, dc, X, s, data);
      case Generating(choice) => GenerateFaithful(c, dc, X, s, choice);
      case Hearing(rid, pkt) => HearFaithful(c, dc, X, s, rid, pkt);
    }
  }
}
