// The decoder as the source keeps it: a matrix, a buffer and the known symbols, updated in place.

module Decoders {
  import opened Fields
  import opened Keys
  import opened Rows
  import opened Elimination
  import opened Equations
  import opened DecodingMatrices
  import opened Delivery
  import opened Decoding

  // One turn of the loop: the front symbol goes out.
  lemma DrainTurn<T(!new)>(start: Drained<T>, b: Buffer<T>, out: seq<Symbol<T>>)
    requires b.next in b.symbols && start == Drained(Drain(b).buffer, out + Drain(b).out)
    ensures var next := Buffer(b.symbols - {b.next}, b.next + 1);
            && |next.symbols| < |b.symbols|
            && start == Drained(Drain(next).buffer, out + [Symbol(b.next, b.symbols[b.next])] + Drain(next).out)
  {
    DrainOne(b);
    var next := Buffer(b.symbols - {b.next}, b.next + 1);
    assert out + ([Symbol(b.next, b.symbols[b.next])] + Drain(next).out)
        == out + [Symbol(b.next, b.symbols[b.next])] + Drain(next).out;
  }

  class SymbolBuffer<T(==,!new)> {
    var symbols: map<nat, seq<T>>
    var nextDeliveryId: nat

    ghost function Value(): Buffer<T>
      reads this
    {
      Buffer(symbols, nextDeliveryId)
    }

    constructor (startId: nat)
      ensures Value() == Buffer(map[], startId)
    {
      symbols, nextDeliveryId := map[], startId;
    }

    method Insert(id: nat, data: seq<T>)
      modifies this
      ensures Value() == Delivery.Insert(old(Value()), id, data)
    {
      if id >= nextDeliveryId {
        if id !in symbols {
          symbols := symbols[id := data];
        }
      }
    }

    method DrainDeliverable() returns (out: seq<Symbol<T>>)
      modifies this
      ensures Drained(Value(), out) == Drain(old(Value()))
    {
      out := [];
      while nextDeliveryId in symbols
        invariant Drain(old(Value())) == Drained(Drain(Value()).buffer, out + Drain(Value()).out)
        decreases |symbols|
      {
        DrainTurn(Drain(old(Value())), Value(), out);
        out := out + [Symbol(nextDeliveryId, symbols[nextDeliveryId])];
        symbols := symbols - {nextDeliveryId};
        nextDeliveryId := nextDeliveryId + 1;
      }
    }

    method PruneBelow(floor: nat)
      modifies this
      ensures Value() == Delivery.PruneBelow(old(Value()), floor)
    {
      symbols := map id | id in symbols && id >= floor :: symbols[id];
      if nextDeliveryId < floor {
        nextDeliveryId := floor;
      }
    }

    method HighestId() returns (high: Option<nat>)
      ensures high == Last(Sorted(symbols.Keys))
    {
      high := Last(Sorted(symbols.Keys));
    }

    method IdsFrom(from: nat) returns (ids: set<nat>)
      ensures ids == set id | id in symbols && id >= from
    {
      ids := set id | id in symbols && id >= from;
    }
  }

  function Or<V>(o: Option<V>, otherwise: V): V {
    if o.Some? then o.value else otherwise
  }

  function Last(ids: seq<nat>): Option<nat> {
    if ids == [] then None else Some(ids[|ids| - 1])
  }

  lemma DrainOne<T>(b: Buffer<T>)
    requires b.next in b.symbols
    ensures |b.symbols - {b.next}| < |b.symbols|
    ensures var rest := Drain(Buffer(b.symbols - {b.next}, b.next + 1));
            Drain(b) == Drained(rest.buffer, [Symbol(b.next, b.symbols[b.next])] + rest.out)
  {
    var rest := b.symbols - {b.next};
    assert rest.Keys == b.symbols.Keys - {b.next};
    assert |rest| == |rest.Keys| && |b.symbols| == |b.symbols.Keys|;
  }

  class Decoder<T(==,!new)> {
    const config: Config<T>
    const matrix: DecodingMatrix<T>
    const buffer: SymbolBuffer<T>
    var known: map<nat, seq<T>>
    var encoderWinMin: nat

    ghost function Repr(): set<object>
      reads this, matrix
    {
      {this, matrix, buffer} + matrix.repr
    }

    ghost predicate Valid()
      reads this, matrix, matrix.repr
    {
      && matrix.Valid()
      && matrix.F == config.F && matrix.symbolSize == config.symbolSize && matrix.maxRows == config.maxRows
      && this !in matrix.repr && buffer !in matrix.repr
      && Shaped(matrix.view, config.symbolSize) && KnownShaped(known, config.symbolSize)
    }

    ghost function Value(): State<T>
      reads this, matrix, buffer
    {
      State(matrix.view, known, buffer.Value(), encoderWinMin)
    }

    constructor (config: Config<T>)
      ensures Valid() && fresh(this.matrix) && fresh(this.buffer)
      ensures fresh(this.matrix.repr) && this.config == config && Value() == Start()
    {
      this.config := config;
      matrix := new DecodingMatrix<T>(config.F, config.symbolSize, config.maxRows);
      buffer := new SymbolBuffer<T>(0);
      known, encoderWinMin := map[], 0;
    }

    // A source symbol of the right size: known, buffered, and substituted into the matrix.
    method LearnSource(id: nat, data: seq<T>)
      requires Valid() && |data| == config.symbolSize
      modifies Repr()
      ensures Valid() && matrix.repr == old(matrix.repr)
      ensures Value() == AfterSource(config, old(Value()), id, data)
    {
      Remember(id, data);
      var recovered := matrix.AddKnownSource(id, data, known.Keys);
      AbsorbRecovered(recovered);
    }

    // Known and buffered; the first data for an id stays.
    method Remember(id: nat, data: seq<T>)
      requires Valid() && |data| == config.symbolSize
      modifies this, buffer
      ensures Valid() && known.Keys == old(known).Keys + {id}
      ensures Value() == old(Value()).(known := Learned(old(known), id, data),
                                       buffer := Delivery.Insert(old(buffer.Value()), id, data))
    {
      if id !in known {
        known := known[id := data];
      }
      buffer.Insert(id, data);
    }

    method LearnCoded(ev: EncodingVector<T>, payload: seq<T>)
      requires Valid() && IsField(config.F) && config.F.order > 1 && WellFormed(ev) && |payload| == config.symbolSize
      modifies Repr()
      ensures Valid() && fresh(matrix.repr - old(matrix.repr))
      ensures Value() == AfterCoded(config, old(Value()), ev, payload)
    {
      MoveStart(ev);
      var recovered := matrix.AddCoded(ev, payload, known);
      AbsorbRecovered(recovered);
    }

    // The first id covered moves the start of the encoder's window.
    method MoveStart(ev: EncodingVector<T>)
      modifies this`encoderWinMin
      ensures encoderWinMin == WindowMin(old(encoderWinMin), ev)
    {
      if ev.ids != [] && ev.ids[0] > encoderWinMin {
        encoderWinMin := ev.ids[0];
      }
    }

    // None for a packet of the wrong size.  `report` is the feedback policy's answer.
    method HandleSource(id: nat, data: seq<T>, report: bool) returns (events: Option<seq<Event<T>>>)
      requires Valid() && IsField(config.F) && config.F.order > 1
      modifies Repr()
      ensures Valid() && matrix.repr == old(matrix.repr)
      ensures events.Some? <==> |data| == config.symbolSize
      ensures Result(Value(), Or(events, [])) == Step(config, old(Value()), Arrival(SourcePacket(id, data), report))
    {
      if |data| != config.symbolSize {
        return None;
      }
      LearnSource(id, data);
      var out := Close(report);
      events := Some(out);
    }

    method HandleCoded(ev: EncodingVector<T>, payload: seq<T>, report: bool) returns (events: Option<seq<Event<T>>>)
      requires Valid() && IsField(config.F) && config.F.order > 1 && WellFormed(ev)
      modifies Repr()
      ensures Valid() && fresh(matrix.repr - old(matrix.repr))
      ensures events.Some? <==> |payload| == config.symbolSize
      ensures Result(Value(), Or(events, [])) == Step(config, old(Value()), Arrival(CodedPacket(ev, payload), report))
    {
      if |payload| != config.symbolSize {
        return None;
      }
      LearnCoded(ev, payload);
      var out := Close(report);
      events := Some(out);
    }

    method AbsorbRecovered(recovered: seq<Symbol<T>>)
      requires Valid() && SymbolsShaped(recovered, config.symbolSize)
      modifies this, buffer
      ensures Valid() && Value() == Absorb(old(Value()), recovered)
    {
      for i := 0 to |recovered|
        invariant Valid() && Value() == Absorb(old(Value()), recovered[..i])
      {
        assert recovered[..i + 1][..i] == recovered[..i];
        Remember(recovered[i].id, recovered[i].data);
      }
      assert recovered[..|recovered|] == recovered;
    }

    // Deliver, report, check for a gap.
    method Close(report: bool) returns (events: seq<Event<T>>)
      requires Valid()
      modifies buffer
      ensures Valid() && Result(Value(), events) == Finish(old(Value()), report)
    {
      ghost var start := Value();
      var out := buffer.DrainDeliverable();
      FinishIs(start, report, Drained(buffer.Value(), out));
      events := Ready(out);
      var asked := Reported(report);
      events := events + asked;
      var gap := SkipGap();
      events := events + gap;
      matrix.StaysValid();
    }

    method Reported(report: bool) returns (events: seq<Event<T>>)
      requires matrix.view.Keys == matrix.rows.Keys
      ensures events == Reports(|matrix.view|, buffer.Value(), report)
    {
      events := [];
      if report {
        var r := Report();
        events := [SendFeedback(r)];
      }
    }

    method SkipGap() returns (gap: seq<Event<T>>)
      modifies buffer
      ensures gap == Gap(old(buffer.nextDeliveryId), encoderWinMin)
      ensures buffer.Value() == PassGap(old(buffer.Value()), encoderWinMin)
    {
      gap := Gap(buffer.nextDeliveryId, encoderWinMin);
      if encoderWinMin > buffer.nextDeliveryId {
        buffer.PruneBelow(encoderWinMin);
      }
    }

    method CountMissing() returns (n: nat)
      ensures n == Decoding.CountMissing(buffer.Value())
    {
      var next := buffer.nextDeliveryId;
      var highest := buffer.HighestId();
      var high := if highest.Some? then highest.value else next;
      if high < next {
        return 0;
      }
      var buffered := buffer.IdsFrom(next);
      assert buffered == IdsFrom(buffer.Value());
      var span := high - next + 1;
      n := if span < |buffered| then 0 else span - |buffered|;
    }

    method Report() returns (r: Report)
      requires matrix.view.Keys == matrix.rows.Keys
      ensures r == MakeReport(|matrix.view|, buffer.Value())
    {
      var next := buffer.nextDeliveryId;
      var from := buffer.IdsFrom(next);
      assert from == IdsFrom(buffer.Value());
      var ids := Sorted(from);
      var missing := CountMissing();
      assert |matrix.rows| == |matrix.rows.Keys| && |matrix.view| == |matrix.view.Keys|;
      r := Decoding.Report(next, missing, |matrix.rows|, if |ids| > 256 then ids[..256] else ids);
    }
  }
}
