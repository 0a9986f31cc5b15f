// Sessions whose window is thinned by acknowledgements: one holds two symbols with the same Cauchy
// point, in the other the flag misses that a hole is gone.

module ThinnedWindows {
  import opened Bytes
  import opened Fields
  import opened Elimination
  import opened Decoding
  import opened Exactness
  import opened Coefficients
  import opened Windows
  import opened Encoding
  import opened Sessions
  import opened QuietSessions
  import Acks
  import F = Feedback

  // One report from one receiver: everything but 0.
  function AllButFirst(n: nat): (ids: seq<nat>)
    ensures forall id :: id in ids <==> 0 < id < n
  {
    if n <= 1 then [] else AllButFirst(n - 1) + [n - 1]
  }

  function Report(n: nat): F.FeedbackPacket {
    F.FeedbackPacket(0, 0, 0, ZERO, F.SackOf(0, AllButFirst(n)))
  }

  lemma ReportAcks(n: nat, id: nat)
    ensures Acks.PacketAcks(Report(n), id) <==> 0 < id < n
  {
    F.SackOfAcks(0, AllButFirst(n), id);
  }

  ghost function Gone<T>(c: EncoderConfig<T>, w: Window<T>, n: nat): seq<nat> {
    var receivers: Acks.Receivers := map[0 := Acks.Updated(Acks.Entry(0, {}), Report(n))];
    Acks.SymbolsToRemove(c.policy, receivers, IdsOf(w.symbols))
  }

  lemma GoneIs<T>(c: EncoderConfig<T>, w: Window<T>, n: nat, id: nat)
    requires c.policy == Acks.AnyAck
    ensures id in Gone(c, w, n) <==> id in IdsOf(w.symbols) && 0 < id < n
  {
    var e := Acks.Updated(Acks.Entry(0, {}), Report(n));
    Acks.UpdatedAcks(Acks.Entry(0, {}), Report(n), id);
    ReportAcks(n, id);
    var receivers: Acks.Receivers := map[0 := e];
    assert Acks.Drops(Acks.AnyAck, receivers, id) <==> Acks.IsAcked(receivers, 0, id);
  }

  // n submissions, the report, and one more submission.
  ghost function Thinning<T>(X: Sources<T>, n: nat): seq<Op<T>> {
    ThenCall(X, n, Hearing(0, Report(n))) + [Submitting(X(n))]
  }

  lemma OneLeft<T(!new)>(c: EncoderConfig<T>, w: Window<T>, n: nat)
    requires Orderly(w) && c.policy == Acks.AnyAck && w.nextId == n
    ensures |Without(w, Gone(c, w, n)).symbols| <= 1
  {
    var r := Without(w, Gone(c, w, n));
    OrderlyKept(w, [], Gone(c, w, n));
    forall i | 0 <= i < |r.symbols| ensures r.symbols[i].id == 0 {
      var sym := r.symbols[i];
      assert sym in r.symbols && sym in w.symbols;
      IdsHave(w.symbols, sym);
      assert Contains(r, sym.id);
      Membership(w, [], Gone(c, w, n), sym.id);
      GoneIs(c, w, n, sym.id);
    }
    OneZero(r.symbols, r.nextId);
  }

  lemma OneZero<T>(symbols: seq<Symbol<T>>, bound: nat)
    requires Climbing(symbols, bound) && forall i :: 0 <= i < |symbols| ==> symbols[i].id == 0
    ensures |symbols| <= 1
  {
    SecondAfter(symbols, bound);
  }

  lemma SecondAfter<T>(symbols: seq<Symbol<T>>, bound: nat)
    requires Climbing(symbols, bound)
    ensures |symbols| > 1 ==> symbols[0].id < symbols[1].id
  {
  }

  lemma IdsHave<T>(symbols: seq<Symbol<T>>, s: Symbol<T>)
    requires s in symbols
    ensures s.id in IdsOf(symbols)
  {
    var i :| 0 <= i < |symbols| && symbols[i] == s;
    assert IdsOf(symbols)[i] == s.id;
  }

  // The window then holds 0 and 128 alone, and both fall on the same point.
  lemma WindowCollides<T(!new)>(c: EncoderConfig<T>, X: Sources<T>, n: nat)
    requires Quiet(c) && SourcesSized(X, c.symbolSize) && c.policy == Acks.AnyAck && n == 128 <= c.capacity
    ensures var w := After(c, Thinning(X, n)).state.window;
            |w.symbols| <= 2 && Contains(w, 0) && Contains(w, 128) && SourcePoint(256, 0) == SourcePoint(256, 128)
  {
    var w, ops := Plain(c, X, n).state.window, Thinning(X, n);
    assert ops[..n + 1] == ThenCall(X, n, Hearing(0, Report(n)));
    QuietThen(c, X, n, Hearing(0, Report(n)));
    var s := After(c, ops[..n + 1]);
    assert s.state.window == Without(w, Gone(c, w, n));
    OneLeft(c, w, n);
    GoneIs(c, w, n, 0);
    assert Held(X, n)[0].id == 0 && Held(X, n)[0] in w.symbols;
    ThinnedWindowCollides(w, Gone(c, w, n), X(n));
    QuietSubmit(c, s, X(n));
  }

  // ---------------------------------------------------------------- the flag

  lemma OnlyFirst<T(!new)>(c: EncoderConfig<T>, w: Window<T>, n: nat, s0: Symbol<T>)
    requires Orderly(w) && c.policy == Acks.AnyAck && w.nextId == n && |w.symbols| > 1
    requires w.symbols[0] == s0 && s0.id == 0
    ensures Without(w, Gone(c, w, n)) == Window([s0], n, true)
  {
    var r := Without(w, Gone(c, w, n));
    OneLeft(c, w, n);
    GoneIs(c, w, n, 0);
    Membership(w, [], Gone(c, w, n), 0);
    assert s0 in w.symbols;
    assert Contains(r, 0);
    FirstStays(w, r, s0);
  }

  lemma FirstStays<T>(w: Window<T>, r: Window<T>, s0: Symbol<T>)
    requires Climbing(w.symbols, w.nextId) && w.symbols != [] && w.symbols[0] == s0 && Contains(r, s0.id)
    requires |r.symbols| <= 1 && forall s :: s in r.symbols ==> s in w.symbols
    ensures r.symbols == [s0]
  {
    var s :| s in r.symbols && s.id == s0.id;
    var i :| 0 <= i < |w.symbols| && w.symbols[i] == s;
  }

  lemma ThinnedHears<T(!new)>(c: EncoderConfig<T>, X: Sources<T>, n: nat)
    requires Quiet(c) && SourcesSized(X, c.symbolSize) && c.policy == Acks.AnyAck && 1 < n <= c.capacity
    ensures var s := After(c, ThenCall(X, n, Hearing(0, Report(n))));
            s.state.window == Window([Symbol(0, X(0))], n, true) && Sane(c, s.state.window)
  {
    QuietThen(c, X, n, Hearing(0, Report(n)));
    OnlyFirst(c, Plain(c, X, n).state.window, n, Symbol(0, X(0)));
  }

  lemma PushedFar<T>(a: Symbol<T>, n: nat, data: seq<T>)
    requires n > a.id + 1
    ensures Pushed(Window([a], n, true), data) == Window([a, Symbol(n, data)], n + 1, false)
  {
  }

  // The window before the last submission: 0 and n, with a hole between.
  lemma ThinnedIs<T(!new)>(c: EncoderConfig<T>, X: Sources<T>, n: nat)
    requires Quiet(c) && SourcesSized(X, c.symbolSize) && c.policy == Acks.AnyAck && 1 < n <= c.capacity
    ensures var s := After(c, Thinning(X, n));
            s.state.window == Window([Symbol(0, X(0)), Symbol(n, X(n))], n + 1, false) && Sane(c, s.state.window)
  {
    var ops := Thinning(X, n);
    assert ops[..n + 1] == ThenCall(X, n, Hearing(0, Report(n)));
    ThinnedHears(c, X, n);
    SubmitsTo(c, After(c, ops[..n + 1]), X(n));
    PushedFar(Symbol(0, X(0)), n, X(n));
  }

  // The window and its sanity after one more submission.
  lemma SubmitsTo<T(!new)>(c: EncoderConfig<T>, s: Session<T>, data: seq<T>)
    requires Quiet(c) && Sane(c, s.state.window) && |data| == c.symbolSize
    requires |s.state.window.symbols| < c.capacity || c.backpressure == EvictOldest
    ensures var w := Apply(c, s, Submitting(data)).state.window;
            w == Pushed(MakeRoom(c, s.state.window), data) && Sane(c, w)
  {
    QuietSubmit(c, s, data);
    MakeRoomSane(c, s.state.window, data);
  }

  lemma HoleEvicted<T>(a: Symbol<T>, b: Symbol<T>, data: seq<T>)
    ensures var w := Pushed(Evicted(Window([a, b], b.id + 1, false)), data);
            IdsOf(w.symbols) == [b.id, b.id + 1] && Missed(w)
  {
  }

  // Two submissions into a window of two, of which 1 is acknowledged, and two more: the first leaves
  // a hole, the second evicts 0 and with it the hole, and the flag stays unset.
  lemma EvictionMisses<T(!new)>(c: EncoderConfig<T>, X: Sources<T>, n: nat)
    requires Quiet(c) && SourcesSized(X, c.symbolSize) && c.policy == Acks.AnyAck && c.backpressure == EvictOldest
    requires n == 2 == c.capacity
    ensures var w := After(c, Thinning(X, n) + [Submitting(X(n + 1))]).state.window;
            IdsOf(w.symbols) == [n, n + 1] && Missed(w)
  {
    var ops := Thinning(X, n) + [Submitting(X(n + 1))];
    assert ops[..|ops| - 1] == Thinning(X, n);
    ThinnedIs(c, X, n);
    SubmitsTo(c, After(c, Thinning(X, n)), X(n + 1));
    HoleEvicted(Symbol(0, X(0)), Symbol(n, X(n)), X(n + 1));
  }
}
