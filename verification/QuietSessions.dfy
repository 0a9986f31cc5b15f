// Sessions that submit symbols and, at a rate of zero, send nothing but those symbols.

module QuietSessions {
  import opened Fields
  import opened Keys
  import opened Elimination
  import opened Decoding
  import opened Exactness
  import opened Windows
  import opened FecRates
  import opened Encoding
  import opened Sessions

  ghost predicate Quiet<T(!new)>(c: EncoderConfig<T>) {
    Built(c) && c.numer == 0
  }

  ghost function Submits<T>(X: Sources<T>, n: nat): (r: seq<Op<T>>)
    ensures |r| == n
  {
    seq(n, i requires 0 <= i < n => Submitting(X(i)))
  }

  ghost function Held<T>(X: Sources<T>, n: nat): (r: seq<Symbol<T>>)
    ensures |r| == n && forall i :: 0 <= i < n ==> r[i] == Symbol(i, X(i))
  {
    seq(n, i requires 0 <= i < n => Symbol(i, X(i)))
  }

  ghost function Log<T>(X: Sources<T>, n: nat): (r: seq<Packet<T>>)
    ensures |r| == n && forall i :: 0 <= i < n ==> r[i] == SourcePacket(i, X(i))
  {
    seq(n, i requires 0 <= i < n => SourcePacket(i, X(i)))
  }

  ghost function Data<T>(X: Sources<T>, n: nat): (r: seq<seq<T>>)
    ensures |r| == n && forall i :: 0 <= i < n ==> r[i] == X(i)
  {
    seq(n, i requires 0 <= i < n => X(i))
  }

  // The window holds all of the n symbols, and each has been sent once.
  ghost function Plain<T>(c: EncoderConfig<T>, X: Sources<T>, n: nat): Session<T> {
    Session(EncoderState(Window(Held(X, n), n, true), FirstLabel(c.strategy), 0, n, map[]),
            Log(X, n), Data(X, n), {}, {})
  }

  lemma QuietRate<T(!new)>(c: EncoderConfig<T>, n: nat)
    requires Quiet(c)
    ensures Redundancy(c, n) == 0
  {
    TotalIsExact(c.numer, c.denom, n);
    TotalIsExact(c.numer, c.denom, n + 1);
    assert n * c.numer == 0 && (n + 1) * c.numer == 0;
  }

  // A submission at rate zero sends the symbol only.
  lemma QuietSubmit<T(!new)>(c: EncoderConfig<T>, s: Session<T>, data: seq<T>)
    requires Quiet(c) && Sane(c, s.state.window) && |data| == c.symbolSize
    requires |s.state.window.symbols| < c.capacity || c.backpressure == EvictOldest
    ensures Apply(c, s, Submitting(data)) == MidSubmit(c, s, data)
  {
    QuietRate(c, s.state.fecCalls);
    SubmitIsBurst(c, s, data);
    NoBurst(c, MidSubmit(c, s, data), Redundancy(c, s.state.fecCalls));
  }

  lemma {:induction false} QuietSession<T(!new)>(c: EncoderConfig<T>, X: Sources<T>, n: nat)
    requires Quiet(c) && SourcesSized(X, c.symbolSize) && n <= c.capacity
    ensures After(c, Submits(X, n)) == Plain(c, X, n)
  {
    if n == 0 {
      assert Plain(c, X, 0) == Opening(c);
    } else {
      var ops := Submits(X, n);
      assert ops[..n - 1] == Submits(X, n - 1);
      QuietSession(c, X, n - 1);
      QuietSubmit(c, Plain(c, X, n - 1), X(n - 1));
      PlainGrows(c, X, n);
    }
  }

  lemma PlainGrows<T(!new)>(c: EncoderConfig<T>, X: Sources<T>, n: nat)
    requires 0 < n <= c.capacity
    ensures MidSubmit(c, Plain(c, X, n - 1), X(n - 1)) == Plain(c, X, n)
  {
    assert Held(X, n - 1) + [Symbol(n - 1, X(n - 1))] == Held(X, n);
    assert Log(X, n - 1) + [SourcePacket(n - 1, X(n - 1))] == Log(X, n);
    assert Data(X, n - 1) + [X(n - 1)] == Data(X, n);
  }

  // n submissions, and one more call.
  ghost function ThenCall<T>(X: Sources<T>, n: nat, op: Op<T>): (r: seq<Op<T>>)
    ensures |r| == n + 1
  {
    Submits(X, n) + [op]
  }

  lemma QuietThen<T(!new)>(c: EncoderConfig<T>, X: Sources<T>, n: nat, op: Op<T>)
    requires Quiet(c) && SourcesSized(X, c.symbolSize) && n <= c.capacity
    ensures Sane(c, Plain(c, X, n).state.window)
    ensures After(c, ThenCall(X, n, op)) == Apply(c, Plain(c, X, n), op)
  {
    QuietSession(c, X, n);
    assert ThenCall(X, n, op)[..n] == Submits(X, n);
  }
}
