// The encoder as the source keeps it: a window, counters, and what the receivers acknowledged.

module Encoders {
  import opened Fields
  import opened Rows
  import opened Elimination
  import opened Equations
  import opened Coefficients
  import opened Windows
  import opened FecRates
  import opened Decoding
  import opened Encoding
  import Acks
  import F = Feedback

  datatype SubmitResult<T> = Mismatch | Full | Sent(packets: seq<Packet<T>>)

  // The answer that goes with a submission, and the state it leaves.
  ghost predicate Answers<T>(s: Submission<T>, before: EncoderState<T>, r: SubmitResult<T>, after: EncoderState<T>) {
    match s
    case SymbolSizeMismatch => r == Mismatch && after == before
    case WindowFull => r == Full && after == before
    case Accepted(out) => r == Sent(out.packets) && after == out.state
  }

  lemma SubmitLaunches<T(!new)>(c: EncoderConfig<T>, st: EncoderState<T>, data: seq<T>, n: nat)
    requires c.F.order > 1 && c.denom > 0 && Sane(c, st.window) && |data| == c.symbolSize
    requires !(|st.window.symbols| >= c.capacity && c.backpressure == Reject)
    requires Sane(c, PushedState(c, st, data).window) && n == Redundancy(c, st.fecCalls)
    ensures Submit(c, st, data) == Accepted(Launch(c, PushedState(c, st, data), st.window.nextId, data, n))
  {
  }

  lemma LaunchIs<T(!new)>(
    c: EncoderConfig<T>, pushed: EncoderState<T>, id: nat, data: seq<T>, n: nat, burst: Output<T>)
    requires c.F.order > 1 && Sane(c, pushed.window) && burst == Burst(c, pushed, n)
    ensures Launch(c, pushed, id, data, n) == Output(burst.state, [SourcePacket(id, data)] + burst.packets)
  {
  }

  function AsList<V>(o: Option<V>): seq<V> {
    if o.Some? then [o.value] else []
  }

  // One turn of the accumulation: a zero coefficient is skipped.
  ghost predicate Turn<T>(F: Field<T>, data: Option<seq<T>>, coef: T, before: seq<T>, after: seq<T>) {
    && data.Some? && |data.value| == |before|
    && after == if coef == F.zero then before else MulAcc(F, before, data.value, coef)
  }

  // The accumulator before each turn, and after the last.
  ghost predicate Turns<T>(c: EncoderConfig<T>, w: Window<T>, cover: seq<nat>, coefs: seq<T>, parts: seq<seq<T>>) {
    && |coefs| == |cover| && |parts| == |cover| + 1 && parts[0] == Zeros(c.F, c.symbolSize)
    && forall i {:trigger coefs[i]} :: 0 <= i < |cover| ==>
      Turn(c.F, Lookup(w, cover[i]), coefs[i], parts[i], parts[i + 1])
  }

  lemma PartsTurn<T(!new)>(c: EncoderConfig<T>, w: Window<T>, ev: EncodingVector<T>, coefs: seq<T>)
    returns (parts: seq<seq<T>>)
    requires c.F.order > 1 && WellFormed(ev) && Holds(c, w, ev.ids) && |coefs| == |ev.ids|
    requires forall i :: 0 <= i < |ev.ids| ==> coefs[i] == CoefAt(c.F, ev, i)
    ensures Turns(c, w, ev.ids, coefs, parts) && parts[|ev.ids|] == PartPayload(c, w, ev, |ev.ids|)
  {
    parts := seq(|ev.ids| + 1, i requires 0 <= i <= |ev.ids| => PartPayload(c, w, ev, i));
  }

  ghost predicate PacketOver<T>(c: EncoderConfig<T>, w: Window<T>, at: Label, cover: seq<nat>, packet: Packet<T>)
    requires c.F.order > 1 && Holds(c, w, cover)
  {
    var ev := MakeVector(c, at, cover);
    packet == CodedPacket(ev, PartPayload(c, w, ev, |cover|))
  }

  lemma EmitIs<T(!new)>(
    c: EncoderConfig<T>, st: EncoderState<T>, after: EncoderState<T>, cover: seq<nat>, packet: Packet<T>)
    requires c.F.order > 1 && Holds(c, st.window, cover) && cover != []
    requires after == st.(at := NextLabel(c.F.order, c.strategy, st.at), used := st.used + 1)
    requires PacketOver(c, st.window, st.at, cover, packet)
    ensures Output(after, [packet]) == Emit(c, st, cover)
  {
  }

  class Encoder<T(==,!new)> {
    const config: EncoderConfig<T>
    const window: EncodingWindow<T>
    const ackState: Acks.ReceiverAckState
    const fec: ConstantFecRate
    var nextCodedId: nat
    var codedIdsUsed: nat
    var generation: nat
    var scratch: seq<T>

    ghost function Value(): EncoderState<T>
      reads this`nextCodedId, this`codedIdsUsed, this`generation, window, ackState, fec
    {
      EncoderState(window.Value(), Label(nextCodedId, generation), codedIdsUsed, fec.calls, ackState.receivers)
    }

    ghost predicate Valid()
      reads window, ackState, fec
    {
      && config.F.order > 2 && config.capacity > 0 && IsField(config.F)
      && window.capacity == config.capacity && |window.symbols| <= config.capacity
      && Sane(config, window.Value())
      && fec.Valid() && fec.numer == config.numer && fec.denom == config.denom
    }

    constructor (config: EncoderConfig<T>)
      requires IsField(config.F) && config.F.order > 2 && config.capacity > 0 && config.denom > 0
      ensures Valid() && fresh(window) && fresh(ackState) && fresh(fec) && this.config == config
      ensures Value() == EncoderState(Window([], 0, true), FirstLabel(config.strategy), 0, 0, map[])
    {
      this.config := config;
      window := new EncodingWindow<T>(config.capacity);
      ackState := new Acks.ReceiverAckState();
      fec := new ConstantFecRate(config.numer, config.denom);
      nextCodedId := if config.strategy == CauchyStrategy then 0 else 1;
      codedIdsUsed, generation := 0, 0;
      scratch := Zeros(config.F, config.symbolSize);
    }

    // ------------------------------------------------------------ coded packets

    method AdvanceLabel()
      requires config.F.order > 2
      modifies this`nextCodedId, this`generation, this`codedIdsUsed
      ensures Label(nextCodedId, generation)
           == NextLabel(config.F.order, config.strategy, Label(old(nextCodedId), old(generation)))
      ensures codedIdsUsed == old(codedIdsUsed) + 1
    {
      nextCodedId := nextCodedId + 1;
      codedIdsUsed := codedIdsUsed + 1;
      match config.strategy
      case VandermondeStrategy =>
        if nextCodedId >= config.F.order - 1 {
          nextCodedId := 1;
        }
      case CauchyStrategy =>
        if nextCodedId >= Cycle(config.F.order) {
          nextCodedId := 0;
          generation := (generation + 1) % 256;
        }
    }

    method Coefficients(at: Label, cover: seq<nat>) returns (coefs: seq<T>, ev: EncodingVector<T>)
      requires config.F.order > 1
      ensures ev == MakeVector(config, at, cover) && |coefs| == |cover|
      ensures forall i :: 0 <= i < |cover| ==> coefs[i] == CoefAt(config.F, ev, i)
    {
      match config.strategy
      case VandermondeStrategy =>
        coefs := VandermondeBatch(config.F, cover, at.codedId);
        ev := EncodingVector(at.codedId, 0, cover, []);
      case CauchyStrategy =>
        coefs := CauchyBatch(config.F, cover, at.codedId, at.generation);
        ev := EncodingVector(at.codedId, at.generation, cover, coefs);
    }

    method ComputePayload(ghost parts: seq<seq<T>>, cover: seq<nat>, coefs: seq<T>) returns (payload: seq<T>)
      requires Orderly(window.Value()) && Turns(config, window.Value(), cover, coefs, parts)
      modifies this`scratch
      ensures payload == parts[|cover|]
    {
      scratch := Zeros(config.F, config.symbolSize);
      for i := 0 to |cover|
        invariant scratch == parts[i]
      {
        if coefs[i] != config.F.zero {
          var data := window.Get(cover[i]);
          scratch := MulAcc(config.F, scratch, data.value, coefs[i]);
        }
      }
      payload := scratch;
    }

    // The packet for a label that has been taken.
    method CodedOver(at: Label, cover: seq<nat>) returns (packet: Packet<T>)
      requires config.F.order > 1 && Orderly(window.Value()) && Holds(config, window.Value(), cover)
      modifies this`scratch
      ensures PacketOver(config, window.Value(), at, cover, packet)
    {
      var coefs, ev := Coefficients(at, cover);
      ghost var parts := PartsTurn(config, window.Value(), ev, coefs);
      var payload := ComputePayload(parts, cover, coefs);
      packet := CodedPacket(ev, payload);
    }

    method GenerateInner(cover: seq<nat>) returns (packet: Packet<T>)
      requires Valid() && cover != [] && Holds(config, window.Value(), cover)
      modifies this
      ensures Valid() && Output(Value(), [packet]) == Emit(config, old(Value()), cover)
    {
      ghost var start := Value();
      var at := Label(nextCodedId, generation);
      AdvanceLabel();
      packet := CodedOver(at, cover);
      EmitIs(config, start, Value(), cover, packet);
    }

    method Generate(choice: Choice) returns (packet: Option<Packet<T>>)
      requires Valid()
      modifies this
      ensures Valid() && Output(Value(), AsList(packet)) == Encoding.Generate(config, old(Value()), choice)
    {
      var ids := IdsOf(window.symbols);
      var cover;
      match choice {
        case Everything => cover := ids;
        case Listed(asked) => cover := Asked(ids, asked);
        case MostRecent(n) => cover := Recent(ids, n);
        case Unacked(rid) => cover := Missing(ackState.receivers, rid, ids);
      }
      assert cover == CoverOf(Value(), choice);
      FindsInWindow(config, window.Value(), cover);
      if cover == [] {
        return None;
      }
      var p := GenerateInner(cover);
      packet := Some(p);
    }

    // ------------------------------------------------------------ submission and feedback

    // Room for one more: false when the window is full and nothing may be evicted.
    method ReserveRoom() returns (ok: bool)
      requires Valid()
      modifies window
      ensures Valid() && ok == !(|old(window.symbols)| >= config.capacity && config.backpressure == Reject)
      ensures window.Value() == if ok then MakeRoom(config, old(window.Value())) else old(window.Value())
      ensures ok ==> !window.IsFull()
    {
      MakeRoomSane(config, window.Value(), []);
      ok := true;
      if window.IsFull() {
        match config.backpressure
        case Reject => ok := false;
        case EvictOldest => window.EvictOldest();
      }
    }

    // The symbol enters the window, and the rate is asked once.
    method PushOne(data: seq<T>) returns (id: nat, n: nat)
      requires Valid() && |data| == config.symbolSize && !window.IsFull()
      requires Sane(config, Pushed(window.Value(), data))
      modifies window, fec
      ensures Valid() && id == old(window.nextId) && n == Redundancy(config, old(fec.calls))
      ensures Value() == old(Value()).(window := Pushed(old(window.Value()), data), fecCalls := old(fec.calls) + 1)
    {
      id := window.Push(data);
      n := Redundant();
    }

    method SubmitSource(data: seq<T>) returns (r: SubmitResult<T>)
      requires Valid()
      modifies this, window, fec
      ensures Valid() && Answers(Submit(config, old(Value()), data), old(Value()), r, Value())
    {
      if |data| != config.symbolSize {
        return Mismatch;
      }
      ghost var start := Value();
      MakeRoomSane(config, start.window, data);
      var ok := ReserveRoom();
      if !ok {
        return Full;
      }
      var id, n := PushOne(data);
      var burst := SendBurst(n);
      SubmitLaunches(config, start, data, n);
      LaunchIs(config, PushedState(config, start, data), id, data, n, Output(Value(), burst));
      r := Sent([SourcePacket(id, data)] + burst);
    }

    method Redundant() returns (n: nat)
      requires Valid()
      modifies fec
      ensures Valid() && fec.calls == old(fec.calls) + 1 && n == Redundancy(config, old(fec.calls))
    {
      NothingLost(config.numer, config.denom, fec.calls + 1);
      n := fec.CodedPacketsToGenerate();
    }

    // The window is not empty after a submission, so every turn sends a packet.
    method SendBurst(n: nat) returns (packets: seq<Packet<T>>)
      requires Valid()
      modifies this
      ensures Valid() && Output(Value(), packets) == Burst(config, old(Value()), n)
    {
      packets := [];
      for i := 0 to n
        invariant Valid() && Output(Value(), packets) == Burst(config, old(Value()), i)
      {
        var p := Generate(Everything);
        packets := packets + AsList(p);
      }
    }

    method HandleFeedback(rid: nat, pkt: F.FeedbackPacket)
      requires Valid()
      modifies window, ackState
      ensures Valid() && Value() == Acknowledge(config, old(Value()), rid, pkt)
    {
      ackState.Update(rid, pkt);
      var ids := IdsOf(window.symbols);
      var gone := Acks.SymbolsToRemove(config.policy, ackState.receivers, ids);
      WithoutSane(config, window.Value(), gone);
      window.RemoveIds(gone);
    }
  }
}
