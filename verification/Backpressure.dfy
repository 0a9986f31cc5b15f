// A full window, over whole sessions: what each of the two answers to it keeps.

module Backpressures {
  import opened Fields
  import opened Elimination
  import opened Windows
  import opened Decoding
  import opened Encoding
  import opened Sessions
  import Acks

  // What was evicted is older than everything in the window.
  ghost predicate Older<T>(evicted: set<nat>, w: Window<T>) {
    && (forall e: nat, id: nat :: e in evicted && Contains(w, id) ==> e < id)
    && (forall e: nat :: e in evicted ==> e < w.nextId)
  }

  lemma RoomOlder<T(!new)>(c: EncoderConfig<T>, w: Window<T>, evicted: set<nat>)
    requires Orderly(w) && Older(evicted, w)
    ensures Older(evicted + Displaced(c, w), MakeRoom(c, w)) && Orderly(MakeRoom(c, w))
  {
    if |w.symbols| >= c.capacity && w.symbols != [] {
      OrderlyKept(w, [], []);
      forall id: nat | Contains(Evicted(w), id) ensures w.symbols[0].id < id && Contains(w, id) {
        Membership(w, [], [], id);
        var x :| x in w.symbols && x.id == id;
      }
    }
  }

  lemma PushOlder<T(!new)>(w: Window<T>, data: seq<T>, evicted: set<nat>)
    requires Orderly(w) && Older(evicted, w)
    ensures Older(evicted, Pushed(w, data))
  {
    forall id: nat | Contains(Pushed(w, data), id) ensures Contains(w, id) || id == w.nextId {
      Membership(w, data, [], id);
    }
  }

  ghost predicate Pressed<T>(c: EncoderConfig<T>, s: Session<T>) {
    && |s.state.window.symbols| <= c.capacity
    && Older(s.evicted, s.state.window)
    && (c.backpressure == Reject ==> s.evicted == {})
  }

  lemma SubmitPressed<T(!new)>(c: EncoderConfig<T>, s: Session<T>, data: seq<T>)
    requires Built(c) && Sane(c, s.state.window) && Pressed(c, s)
    ensures Pressed(c, Apply(c, s, Submitting(data)))
  {
    if Submit(c, s.state, data).Accepted? {
      RoomOlder(c, s.state.window, s.evicted);
      PushOlder(MakeRoom(c, s.state.window), data, s.evicted + Displaced(c, s.state.window));
    }
  }

  lemma HearPressed<T(!new)>(c: EncoderConfig<T>, s: Session<T>, op: Op<T>)
    requires Built(c) && Sane(c, s.state.window) && Pressed(c, s) && op.Hearing?
    ensures Pressed(c, Apply(c, s, op))
  {
    var receivers := s.state.receivers[op.rid := Acks.Updated(Acks.EntryOf(s.state.receivers, op.rid), op.pkt)];
    var gone := Acks.SymbolsToRemove(c.policy, receivers, IdsOf(s.state.window.symbols));
    WithoutSane(c, s.state.window, gone);
    forall id: nat | Contains(Without(s.state.window, gone), id) ensures Contains(s.state.window, id) {
      Membership(s.state.window, [], gone, id);
    }
  }

  // In every session the window holds no more than its capacity and only the oldest were evicted; and
  // an encoder that rejects evicts nothing.
  lemma {:induction false} SessionPressed<T(!new)>(c: EncoderConfig<T>, ops: seq<Op<T>>)
    requires Built(c)
    ensures var s := After(c, ops);
            && |s.state.window.symbols| <= c.capacity && Older(s.evicted, s.state.window)
            && (c.backpressure == Reject ==> s.evicted == {})
  {
    if ops != [] {
      var init, op := ops[..|ops| - 1], ops[|ops| - 1];
      SessionPressed(c, init);
      var s := After(c, init);
      match op
      case Submitting(data) => SubmitPressed(c, s, data);
      case Generating(choice) =>
      case Hearing(rid, pkt) => HearPressed(c, s, op);
    }
  }

  // So with Reject each symbol accepted is in the window until the policy drops it.
  lemma RejectKeeps<T(!new)>(c: EncoderConfig<T>, ops: seq<Op<T>>, id: nat)
    requires Built(c) && c.backpressure == Reject
    ensures var s := After(c, ops);
            id < s.state.window.nextId && id !in s.removed <==> Contains(s.state.window, id)
  {
    SessionPressed(c, ops);
    EverySymbolPlaced(c, ops, id);
  }

  // A submission is refused exactly when the size is wrong, or the window full and the encoder rejects;
  // then nothing changes, and otherwise the symbol is accepted.
  lemma RefusedIff<T(!new)>(c: EncoderConfig<T>, ops: seq<Op<T>>, data: seq<T>)
    requires Built(c)
    ensures var s, r := After(c, ops), After(c, ops + [Submitting(data)]);
            if |data| != c.symbolSize || (c.backpressure == Reject && |s.state.window.symbols| >= c.capacity)
            then r == s
            else r.sources == s.sources + [data]
  {
    assert (ops + [Submitting(data)])[..|ops|] == ops;
  }
}
