// The decoder as a function of its state and one packet, and runs of it.

module Decoding {
  import opened Fields
  import opened Keys
  import opened Rows
  import opened Elimination
  import opened Equations
  import opened Delivery

  // What a feedback packet reports; see Feedback.dfy for its bytes.
  datatype Report = Report(firstSrcId: nat, missing: nat, unused: nat, acked: seq<nat>)

  datatype Event<T> =
    | SourceReady(sym: Symbol<T>)
    | SendFeedback(report: Report)
    | UnrecoverableGap(firstMissing: nat, count: nat)

  // A packet that arrives, and whether the feedback policy asks for a report after it.
  datatype Packet<T> =
    | SourcePacket(id: nat, data: seq<T>)
    | CodedPacket(ev: EncodingVector<T>, payload: seq<T>)

  datatype Arrival<T> = Arrival(packet: Packet<T>, report: bool)

  datatype Config<!T> = Config(F: Field<T>, symbolSize: nat, maxRows: nat)

  datatype State<T> = State(
    rows: Matrix<T>,
    known: map<nat, seq<T>>,
    buffer: Buffer<T>,
    winMin: nat
  )

  datatype Result<T> = Result(state: State<T>, events: seq<Event<T>>)

  function Start<T>(): State<T> {
    State(map[], map[], Buffer(map[], 0), 0)
  }

  ghost predicate Sized<T>(c: Config<T>, st: State<T>) {
    Shaped(st.rows, c.symbolSize) && KnownShaped(st.known, c.symbolSize)
  }

  // ---------------------------------------------------------------- events

  function Ready<T>(out: seq<Symbol<T>>): (r: seq<Event<T>>)
    ensures |r| == |out| && forall i :: 0 <= i < |r| ==> r[i] == SourceReady(out[i])
  {
    seq(|out|, i requires 0 <= i < |out| => SourceReady(out[i]))
  }

  function IdsFrom<T>(b: Buffer<T>): set<nat> {
    set id | id in b.symbols && id >= b.next
  }

  // One is reported missing for an empty buffer.
  function CountMissing<T>(b: Buffer<T>): nat {
    var ids := Sorted(b.symbols.Keys);
    var high := if ids == [] then b.next else ids[|ids| - 1];
    if high < b.next then 0
    else
      var span, buffered := high - b.next + 1, |IdsFrom(b)|;
      if span < buffered then 0 else span - buffered
  }

  function MakeReport<T>(rowCount: nat, b: Buffer<T>): Report {
    var ids := Sorted(IdsFrom(b));
    Report(b.next, CountMissing(b), rowCount, if |ids| > 256 then ids[..256] else ids)
  }

  function Reports<T>(rowCount: nat, b: Buffer<T>, wanted: bool): (r: seq<Event<T>>)
    ensures |r| <= 1 && forall i :: 0 <= i < |r| ==> r[i].SendFeedback?
  {
    if wanted then [SendFeedback(MakeReport(rowCount, b))] else []
  }

  // Give up what the encoder can no longer send.
  function Gap<T>(next: nat, winMin: nat): seq<Event<T>> {
    if winMin > next then [UnrecoverableGap(next, winMin - next)] else []
  }

  function PassGap<T>(b: Buffer<T>, winMin: nat): Buffer<T> {
    if winMin > b.next then PruneBelow(b, winMin) else b
  }

  // What both handlers end with: deliver, report, check for a gap.
  function Finish<T>(st: State<T>, report: bool): Result<T> {
    var d := Drain(st.buffer);
    Result(st.(buffer := PassGap(d.buffer, st.winMin)),
           Ready(d.out) + Reports(|st.rows|, d.buffer, report) + Gap(d.buffer.next, st.winMin))
  }

  lemma FinishIs<T>(st: State<T>, report: bool, d: Drained<T>)
    requires d == Drain(st.buffer)
    ensures Finish(st, report)
         == Result(st.(buffer := PassGap(d.buffer, st.winMin)),
                   Ready(d.out) + Reports(|st.rows|, d.buffer, report) + Gap(d.buffer.next, st.winMin))
  {
  }

  // ---------------------------------------------------------------- packets

  function Learned<T>(known: map<nat, seq<T>>, id: nat, data: seq<T>): (r: map<nat, seq<T>>)
    ensures r.Keys == known.Keys + {id}
    ensures forall j :: j in known ==> r[j] == known[j]
    ensures id !in known ==> r[id] == data
  {
    if id in known then known else known[id := data]
  }

  // Whatever was known stays as it was.
  ghost predicate KnownStays<T>(before: map<nat, seq<T>>, after: map<nat, seq<T>>) {
    forall id :: id in before ==> id in after && after[id] == before[id]
  }

  // Every recovered symbol becomes known and goes to the buffer.
  function Absorb<T>(st: State<T>, recovered: seq<Symbol<T>>): (r: State<T>)
    ensures r.rows == st.rows && r.winMin == st.winMin && r.buffer.next == st.buffer.next
    ensures Ahead(st.buffer) ==> Ahead(r.buffer)
    ensures forall j :: Settles(st.buffer, j) ==> Settles(r.buffer, j)
  {
    if recovered == [] then st
    else
      var s := recovered[|recovered| - 1];
      var before := Absorb(st, recovered[..|recovered| - 1]);
      before.(known := Learned(before.known, s.id, s.data), buffer := Insert(before.buffer, s.id, s.data))
  }

  function AfterSource<T(==)>(c: Config<T>, st: State<T>, id: nat, data: seq<T>): State<T>
    requires Sized(c, st) && |data| == c.symbolSize
  {
    var known := Learned(st.known, id, data);
    var o := Learn(c.F, st.rows, id, data, st.known.Keys + {id});
    Absorb(State(o.rows, known, Insert(st.buffer, id, data), st.winMin), o.recovered)
  }

  // The first covered id is taken for the start of the encoder's window.
  function WindowMin<T>(winMin: nat, ev: EncodingVector<T>): nat {
    if ev.ids != [] && ev.ids[0] > winMin then ev.ids[0] else winMin
  }

  function AfterCoded<T(==,!new)>(c: Config<T>, st: State<T>, ev: EncodingVector<T>, payload: seq<T>): State<T>
    requires IsField(c.F) && c.F.order > 1 && WellFormed(ev)
    requires Sized(c, st) && |payload| == c.symbolSize
  {
    var o := AddCoded(c.F, st.rows, c.maxRows, CoefMap(c.F, ev, |ev.ids|), payload, st.known);
    Absorb(State(o.rows, st.known, st.buffer, WindowMin(st.winMin, ev)), o.recovered)
  }

  ghost predicate Acceptable<T(!new)>(c: Config<T>, a: Arrival<T>) {
    && IsField(c.F) && c.F.order > 1
    && (a.packet.CodedPacket? ==> WellFormed(a.packet.ev))
  }

  // A packet of the wrong size is refused and changes nothing.
  function Step<T(==,!new)>(c: Config<T>, st: State<T>, a: Arrival<T>): Result<T>
    requires Acceptable(c, a) && Sized(c, st)
  {
    match a.packet
    case SourcePacket(id, data) =>
      if |data| != c.symbolSize then Result(st, [])
      else Finish(AfterSource(c, st, id, data), a.report)
    case CodedPacket(ev, payload) =>
      if |payload| != c.symbolSize then Result(st, [])
      else Finish(AfterCoded(c, st, ev, payload), a.report)
  }

  lemma CodedStep<T(!new)>(c: Config<T>, st: State<T>, ev: EncodingVector<T>, payload: seq<T>)
    requires IsField(c.F) && c.F.order > 1 && WellFormed(ev) && Sized(c, st) && |payload| == c.symbolSize
    ensures Step(c, st, Arrival(CodedPacket(ev, payload), false)) == Finish(AfterCoded(c, st, ev, payload), false)
  {
  }

  lemma {:induction false} AbsorbSized<T(!new)>(c: Config<T>, st: State<T>, recovered: seq<Symbol<T>>)
    requires Sized(c, st) && SymbolsShaped(recovered, c.symbolSize)
    ensures Sized(c, Absorb(st, recovered))
  {
    if recovered != [] {
      AbsorbSized(c, st, recovered[..|recovered| - 1]);
    }
  }

  lemma StepSized<T(!new)>(c: Config<T>, st: State<T>, a: Arrival<T>)
    requires Acceptable(c, a) && Sized(c, st)
    ensures Sized(c, Step(c, st, a).state)
  {
    match a.packet
    case SourcePacket(id, data) =>
      if |data| == c.symbolSize {
        var known := Learned(st.known, id, data);
        var o := Learn(c.F, st.rows, id, data, st.known.Keys + {id});
        AbsorbSized(c, State(o.rows, known, Insert(st.buffer, id, data), st.winMin), o.recovered);
      }
    case CodedPacket(ev, payload) =>
      if |payload| == c.symbolSize {
        CodedSized(c, st, ev, payload);
      }
  }

  lemma CodedSized<T(!new)>(c: Config<T>, st: State<T>, ev: EncodingVector<T>, payload: seq<T>)
    requires IsField(c.F) && c.F.order > 1 && WellFormed(ev)
    requires Sized(c, st) && |payload| == c.symbolSize
    ensures Sized(c, AfterCoded(c, st, ev, payload))
  {
    var o := AddCoded(c.F, st.rows, c.maxRows, CoefMap(c.F, ev, |ev.ids|), payload, st.known);
    AbsorbSized(c, State(o.rows, st.known, st.buffer, WindowMin(st.winMin, ev)), o.recovered);
  }

  // ---------------------------------------------------------------- runs

  function Run<T(==,!new)>(c: Config<T>, st: State<T>, arrivals: seq<Arrival<T>>): (r: Result<T>)
    requires Sized(c, st) && forall i :: 0 <= i < |arrivals| ==> Acceptable(c, arrivals[i])
    ensures Sized(c, r.state)
  {
    if arrivals == [] then Result(st, [])
    else
      var before := Run(c, st, arrivals[..|arrivals| - 1]);
      var last := Step(c, before.state, arrivals[|arrivals| - 1]);
      StepSized(c, before.state, arrivals[|arrivals| - 1]);
      Result(last.state, before.events + last.events)
  }

  // The values that the decoder holds after a run.
  ghost function KnownAfter<T(!new)>(c: Config<T>, arrivals: seq<Arrival<T>>): map<nat, seq<T>>
    requires forall i :: 0 <= i < |arrivals| ==> Acceptable(c, arrivals[i])
  {
    Run(c, Start(), arrivals).state.known
  }

  // ---------------------------------------------------------------- tiling

  // In order, the events account for the ids from lo to hi, one after the other.
  ghost predicate Tiles<T>(events: seq<Event<T>>, lo: nat, hi: nat) {
    if events == [] then lo == hi
    else
      match events[0]
      case SourceReady(s) => s.id == lo && Tiles(events[1..], lo + 1, hi)
      case UnrecoverableGap(first, count) => first == lo && count > 0 && Tiles(events[1..], lo + count, hi)
      case SendFeedback(_) => Tiles(events[1..], lo, hi)
  }

  lemma {:induction false} TilesConcat<T>(a: seq<Event<T>>, b: seq<Event<T>>, lo: nat, mid: nat, hi: nat)
    requires Tiles(a, lo, mid) && Tiles(b, mid, hi)
    ensures Tiles(a + b, lo, hi)
  {
    if a == [] {
      assert a + b == b;
    } else {
      assert (a + b)[1..] == a[1..] + b;
      match a[0]
      case SourceReady(s) => TilesConcat(a[1..], b, lo + 1, mid, hi);
      case UnrecoverableGap(first, count) => TilesConcat(a[1..], b, lo + count, mid, hi);
      case SendFeedback(_) => TilesConcat(a[1..], b, lo, mid, hi);
    }
  }

  lemma {:induction false} ReadyTiles<T>(out: seq<Symbol<T>>, lo: nat)
    requires forall i :: 0 <= i < |out| ==> out[i].id == lo + i
    ensures Tiles(Ready(out), lo, lo + |out|)
  {
    if out != [] {
      assert Ready(out)[1..] == Ready(out[1..]);
      ReadyTiles(out[1..], lo + 1);
    }
  }

  lemma ReportsTile<T>(events: seq<Event<T>>, lo: nat)
    requires |events| <= 1 && forall i :: 0 <= i < |events| ==> events[i].SendFeedback?
    ensures Tiles(events, lo, lo)
  {
    assert |events| == 1 ==> events[1..] == [];
  }

  lemma GapTiles<T>(b: Buffer<T>, winMin: nat)
    ensures Tiles(Gap<T>(b.next, winMin), b.next, PassGap(b, winMin).next)
  {
    var gap := Gap<T>(b.next, winMin);
    assert gap != [] ==> gap[1..] == [];
  }

  lemma FinishTiles<T>(st: State<T>, report: bool)
    ensures Tiles(Finish(st, report).events, st.buffer.next, Finish(st, report).state.buffer.next)
  {
    var d := Drain(st.buffer);
    var ready, reports, gap := Ready(d.out), Reports<T>(|st.rows|, d.buffer, report), Gap<T>(d.buffer.next, st.winMin);
    var lo, mid, hi := st.buffer.next, d.buffer.next, PassGap(d.buffer, st.winMin).next;
    ReadyTiles(d.out, lo);
    ReportsTile(reports, mid);
    GapTiles(d.buffer, st.winMin);
    TilesConcat(ready, reports, lo, mid, mid);
    TilesConcat(ready + reports, gap, lo, mid, hi);
  }

  lemma StepTiles<T(!new)>(c: Config<T>, st: State<T>, a: Arrival<T>)
    requires Acceptable(c, a) && Sized(c, st) && Ahead(st.buffer)
    ensures var r := Step(c, st, a);
            Tiles(r.events, st.buffer.next, r.state.buffer.next) && Ahead(r.state.buffer)
  {
    match a.packet
    case SourcePacket(id, data) =>
      if |data| == c.symbolSize {
        FinishTiles(AfterSource(c, st, id, data), a.report);
      }
    case CodedPacket(ev, payload) =>
      if |payload| == c.symbolSize {
        FinishTiles(AfterCoded(c, st, ev, payload), a.report);
      }
  }

  // Over any run, whatever arrives: the events tile the ids up to the delivery pointer, and no
  // buffered id is behind it.
  lemma {:induction false} RunTiles<T(!new)>(c: Config<T>, st: State<T>, arrivals: seq<Arrival<T>>)
    requires Sized(c, st) && Ahead(st.buffer)
    requires forall i :: 0 <= i < |arrivals| ==> Acceptable(c, arrivals[i])
    ensures var r := Run(c, st, arrivals);
            Tiles(r.events, st.buffer.next, r.state.buffer.next) && Ahead(r.state.buffer)
  {
    if arrivals != [] {
      var init, a := arrivals[..|arrivals| - 1], arrivals[|arrivals| - 1];
      RunTiles(c, st, init);
      var before := Run(c, st, init);
      StepTiles(c, before.state, a);
      var last := Step(c, before.state, a);
      TilesConcat(before.events, last.events, st.buffer.next, before.state.buffer.next, last.state.buffer.next);
    }
  }

  ghost predicate Covers<T>(e: Event<T>, id: nat) {
    match e
    case SourceReady(s) => s.id == id
    case UnrecoverableGap(first, count) => first <= id < first + count
    case SendFeedback(_) => false
  }

  // What tiling means: each id from lo to hi is covered by exactly one event, no other id by any.
  lemma {:induction false} TilesOnce<T>(events: seq<Event<T>>, lo: nat, hi: nat, id: nat)
    requires Tiles(events, lo, hi)
    ensures lo <= hi
    ensures lo <= id < hi <==> exists i :: 0 <= i < |events| && Covers(events[i], id)
    ensures forall i, j :: 0 <= i < j < |events| ==> !(Covers(events[i], id) && Covers(events[j], id))
  {
    if events != [] {
      var rest := events[1..];
      var mid := match events[0]
        case SourceReady(_) => lo + 1
        case UnrecoverableGap(_, count) => lo + count
        case SendFeedback(_) => lo;
      TilesOnce(rest, mid, hi, id);
      assert Covers(events[0], id) <==> lo <= id < mid;
      if mid <= id < hi {
        var i :| 0 <= i < |rest| && Covers(rest[i], id);
        assert events[i + 1] == rest[i];
      }
      forall i | 1 <= i < |events| && Covers(events[i], id) ensures mid <= id < hi {
        assert rest[i - 1] == events[i];
      }
      forall i, j | 0 <= i < j < |events| ensures !(Covers(events[i], id) && Covers(events[j], id)) {
        assert events[j] == rest[j - 1];
        if i > 0 {
          assert events[i] == rest[i - 1];
        }
      }
    }
  }
}
