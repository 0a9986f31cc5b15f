// The order of arrival that the decoder needs, and that a channel which loses and repeats
// packets but does not reorder them always gives it.

module Streams {
  import opened Fields
  import opened Keys
  import opened Rows
  import opened Elimination
  import opened Echelon
  import opened Recovery
  import opened Incremental
  import opened Optimal
  import opened Equations
  import opened Delivery
  import opened Decoding
  import opened Exactness

  // ---------------------------------------------------------------- rows mention covered ids only

  ghost predicate Covered<T>(arrivals: seq<Arrival<T>>, id: nat) {
    exists i :: 0 <= i < |arrivals| && arrivals[i].packet.CodedPacket? && id in arrivals[i].packet.ev.ids
  }

  lemma LearnAbsent<T(!new)>(F: Field<T>, M: Matrix<T>, sid: nat, data: seq<T>, known: set<nat>, id: nat)
    requires IsField(F) && Shaped(M, |data|) && Settled(F, M, known) && sid !in M && Absent(F, M, id)
    ensures Absent(F, Learn(F, M, sid, data, known + {sid}).rows, id)
  {
    AddKnownSplits(F, M, sid, data, known + {sid});
  }

  lemma AddRowAbsent<T(!new)>(F: Field<T>, M: Matrix<T>, maxRows: nat, r: Row<T>, known: set<nat>, id: nat)
    requires IsField(F) && Shaped(M, |r.payload|) && Reduced(F, M)
    requires Absent(F, M, id) && Get(F, r.dense, id) == F.zero
    ensures Absent(F, AddRow(F, M, maxRows, r, known).rows, id)
  {
    if NewRow(F, M, r).Some? {
      NewRowFresh(F, M, r);
      var t := NewRow(F, M, r).value;
      var N := InsertRow(F, M, maxRows, t);
      InsertReduced(F, M, maxRows, t, PivotId(F, t.dense).value);
      InsertClean(F, M, maxRows, t, id);
      SolveSplits(F, N, known, |r.payload|);
    }
  }

  lemma CodedRowAbsent<T(!new)>(F: Field<T>, ev: EncodingVector<T>, payload: seq<T>, known: map<nat, seq<T>>, id: nat)
    requires F.order > 1 && WellFormed(ev) && KnownShaped(known, |payload|) && id !in ev.ids
    ensures Get(F, CodedRow(F, CoefMap(F, ev, |ev.ids|), payload, known).dense, id) == F.zero
  {
    var coefs := CoefMap(F, ev, |ev.ids|);
    assert ev.ids[..|ev.ids|] == ev.ids;
    SortedIn(known.Keys);
    SubstituteAllGet(F, Row(FromMap(F, coefs), payload), known, Sorted(known.Keys), id);
  }

  lemma StepAbsent<T(!new)>(c: Config<T>, X: Sources<T>, st: State<T>, a: Arrival<T>, id: nat)
    requires Acceptable(c, a) && SourcesSized(X, c.symbolSize) && Inv(c, X, st) && Timely(c, st, a)
    requires Absent(c.F, st.rows, id) && (a.packet.CodedPacket? ==> id !in a.packet.ev.ids)
    ensures Absent(c.F, Step(c, st, a).state.rows, id)
  {
    match a.packet
    case SourcePacket(sid, data) =>
      if |data| == c.symbolSize {
        LearnAbsent(c.F, st.rows, sid, data, st.known.Keys, id);
      }
    case CodedPacket(ev, payload) =>
      if |payload| == c.symbolSize {
        var row := CodedRow(c.F, CoefMap(c.F, ev, |ev.ids|), payload, st.known);
        CodedRowAbsent(c.F, ev, payload, st.known, id);
        AddRowAbsent(c.F, st.rows, c.maxRows, row, st.known.Keys, id);
      }
  }

  lemma CoveredGrows<T>(arrivals: seq<Arrival<T>>, id: nat)
    requires arrivals != []
    ensures Covered(arrivals[..|arrivals| - 1], id) ==> Covered(arrivals, id)
  {
    var init := arrivals[..|arrivals| - 1];
    if Covered(init, id) {
      var i :| 0 <= i < |init| && init[i].packet.CodedPacket? && id in init[i].packet.ev.ids;
      assert arrivals[i] == init[i];
    }
  }

  lemma {:induction false} RunAbsent<T(!new)>(
    c: Config<T>, X: Sources<T>, arrivals: seq<Arrival<T>>, lossless: bool, id: nat)
    requires SourcesSized(X, c.symbolSize)
    requires forall i :: 0 <= i < |arrivals| ==> Acceptable(c, arrivals[i])
    requires GoodRun(c, X, arrivals, lossless) && !Covered(arrivals, id)
    ensures Absent(c.F, Run(c, Start(), arrivals).state.rows, id)
  {
    if arrivals != [] {
      var init, a := arrivals[..|arrivals| - 1], arrivals[|arrivals| - 1];
      CoveredGrows(arrivals, id);
      RunAbsent(c, X, init, lossless, id);
      RunRight(c, X, init, lossless);
      StepAbsent(c, X, Run(c, Start(), init).state, a, id);
    }
  }

  // ---------------------------------------------------------------- symbols received are known

  ghost predicate Brings<T>(a: Arrival<T>, id: nat, n: nat) {
    a.packet.SourcePacket? && a.packet.id == id && |a.packet.data| == n
  }

  ghost predicate Received<T>(arrivals: seq<Arrival<T>>, id: nat, n: nat) {
    exists i :: 0 <= i < |arrivals| && Brings(arrivals[i], id, n)
  }

  lemma ReceivedLast<T>(arrivals: seq<Arrival<T>>, id: nat, n: nat)
    requires Received(arrivals, id, n)
    ensures arrivals != []
    ensures Received(arrivals[..|arrivals| - 1], id, n) || Brings(arrivals[|arrivals| - 1], id, n)
  {
    var i :| 0 <= i < |arrivals| && Brings(arrivals[i], id, n);
    if i < |arrivals| - 1 {
      assert arrivals[..|arrivals| - 1][i] == arrivals[i];
    }
  }

  lemma StepKnown<T(!new)>(c: Config<T>, X: Sources<T>, st: State<T>, a: Arrival<T>)
    requires Acceptable(c, a) && SourcesSized(X, c.symbolSize) && Inv(c, X, st)
    requires Truthful(c, X, a) && Timely(c, st, a)
    ensures st.known.Keys <= Step(c, st, a).state.known.Keys
    ensures a.packet.SourcePacket? && |a.packet.data| == c.symbolSize ==> a.packet.id in Step(c, st, a).state.known
  {
    match a.packet
    case SourcePacket(id, data) =>
      if |data| == c.symbolSize {
        SourceKeeps(c, X, st, id);
      }
    case CodedPacket(ev, payload) =>
      if |payload| == c.symbolSize {
        CodedKeeps(c, X, st, ev, payload);
      }
  }

  lemma {:induction false} ReceivedKnown<T(!new)>(
    c: Config<T>, X: Sources<T>, arrivals: seq<Arrival<T>>, lossless: bool, id: nat)
    requires SourcesSized(X, c.symbolSize)
    requires forall i :: 0 <= i < |arrivals| ==> Acceptable(c, arrivals[i])
    requires GoodRun(c, X, arrivals, lossless) && Received(arrivals, id, c.symbolSize)
    ensures id in Run(c, Start(), arrivals).state.known
  {
    ReceivedLast(arrivals, id, c.symbolSize);
    var init, a := arrivals[..|arrivals| - 1], arrivals[|arrivals| - 1];
    RunRight(c, X, init, lossless);
    StepKnown(c, X, Run(c, Start(), init).state, a);
    if Received(init, id, c.symbolSize) {
      ReceivedKnown(c, X, init, lossless, id);
    }
  }

  // ---------------------------------------------------------------- arrivals in order

  // A source packet that is not the first for its id, or that no coded packet has covered yet.
  ghost predicate Prompt<T>(before: seq<Arrival<T>>, a: Arrival<T>, n: nat) {
    a.packet.SourcePacket? ==> Received(before, a.packet.id, n) || !Covered(before, a.packet.id)
  }

  ghost predicate InOrder<T>(arrivals: seq<Arrival<T>>, n: nat) {
    forall k :: 0 <= k < |arrivals| ==> Prompt(arrivals[..k], arrivals[k], n)
  }

  ghost function CodedCount<T>(arrivals: seq<Arrival<T>>): nat {
    if arrivals == [] then 0
    else CodedCount(arrivals[..|arrivals| - 1]) + if arrivals[|arrivals| - 1].packet.CodedPacket? then 1 else 0
  }

  lemma PromptTimely<T(!new)>(c: Config<T>, X: Sources<T>, init: seq<Arrival<T>>, a: Arrival<T>, lossless: bool)
    requires SourcesSized(X, c.symbolSize) && IsField(c.F)
    requires forall i :: 0 <= i < |init| ==> Acceptable(c, init[i])
    requires GoodRun(c, X, init, lossless) && Prompt(init, a, c.symbolSize)
    ensures Timely(c, Run(c, Start(), init).state, a)
  {
    if a.packet.SourcePacket? {
      var st, id := Run(c, Start(), init).state, a.packet.id;
      RunRight(c, X, init, lossless);
      if Received(init, id, c.symbolSize) {
        ReceivedKnown(c, X, init, lossless, id);
        KnownNotKey(c.F, st.rows, st.known.Keys, id);
      } else {
        RunAbsent(c, X, init, lossless, id);
        assert id in st.rows ==> Leads(c.F, st.rows[id], id);
      }
    }
  }

  // The limit that max_rows sets: the row just inserted always stays.
  function Room(maxRows: nat): nat {
    if maxRows == 0 then 1 else maxRows
  }

  lemma EvictRoom<T>(M: Matrix<T>, maxRows: nat)
    requires |M| <= Room(maxRows)
    ensures |Evict(M, maxRows)| < Room(maxRows)
  {
    if |M| >= maxRows && M != map[] {
      var N := M - {Min(M.Keys)};
      assert N.Keys == M.Keys - {Min(M.Keys)};
      assert |N| == |N.Keys| && |M| == |M.Keys|;
    }
  }

  lemma AddRowCount<T(!new)>(F: Field<T>, M: Matrix<T>, maxRows: nat, r: Row<T>, known: set<nat>)
    requires IsField(F) && Shaped(M, |r.payload|)
    ensures |AddRow(F, M, maxRows, r, known).rows| <= |M| + 1
    ensures |M| <= Room(maxRows) ==> |AddRow(F, M, maxRows, r, known).rows| <= Room(maxRows)
  {
    if NewRow(F, M, r).Some? {
      NormalizeCorrect(F, Forward(F, M, r));
      var t := NewRow(F, M, r).value;
      InsertCount(F, M, maxRows, t);
    }
  }

  lemma InsertCount<T(!new)>(F: Field<T>, M: Matrix<T>, maxRows: nat, t: Row<T>)
    requires PivotId(F, t.dense).Some? && Shaped(M, |t.payload|)
    ensures |InsertRow(F, M, maxRows, t)| <= |M| + 1
    ensures |M| <= Room(maxRows) ==> |InsertRow(F, M, maxRows, t)| <= Room(maxRows)
  {
    var q := PivotId(F, t.dense).value;
    var B := BackSubstitute(F, M, q, t);
    var E := Evict(B, maxRows);
    assert |B| == |B.Keys| && |M| == |M.Keys|;
    if |M| <= Room(maxRows) {
      EvictRoom(B, maxRows);
    }
    assert E[q := t].Keys == E.Keys + {q};
    assert |E[q := t]| == |E[q := t].Keys| && |E| == |E.Keys|;
  }

  // The matrix never holds more rows than coded packets have come, nor more than its limit.
  lemma {:induction false} RunRows<T(!new)>(c: Config<T>, arrivals: seq<Arrival<T>>)
    requires forall i :: 0 <= i < |arrivals| ==> Acceptable(c, arrivals[i])
    ensures |Run(c, Start(), arrivals).state.rows| <= CodedCount(arrivals)
    ensures |Run(c, Start(), arrivals).state.rows| <= Room(c.maxRows)
  {
    if arrivals != [] {
      var init, a := arrivals[..|arrivals| - 1], arrivals[|arrivals| - 1];
      RunRows(c, init);
      StepRows(c, Run(c, Start(), init).state, a);
    }
  }

  lemma StepRows<T(!new)>(c: Config<T>, st: State<T>, a: Arrival<T>)
    requires Acceptable(c, a) && Sized(c, st) && |st.rows| <= Room(c.maxRows)
    ensures |Step(c, st, a).state.rows| <= Room(c.maxRows)
    ensures |Step(c, st, a).state.rows| <= |st.rows| + if a.packet.CodedPacket? then 1 else 0
  {
    match a.packet
    case SourcePacket(_, _) =>
    case CodedPacket(ev, payload) =>
      if |payload| == c.symbolSize {
        var row := CodedRow(c.F, CoefMap(c.F, ev, |ev.ids|), payload, st.known);
        AddRowCount(c.F, st.rows, c.maxRows, row, st.known.Keys);
      }
  }

  // ---------------------------------------------------------------- what is missing

  // A coded packet has covered the id, and it has not been received.
  ghost predicate Lacks<T>(arrivals: seq<Arrival<T>>, id: nat, n: nat) {
    Covered(arrivals, id) && !Received(arrivals, id, n)
  }

  ghost predicate AllLacking<T>(arrivals: seq<Arrival<T>>, missing: set<nat>, n: nat) {
    forall id {:trigger Lacks(arrivals, id, n)} :: Lacks(arrivals, id, n) ==> id in missing
  }

  lemma MentionedIsLacking<T(!new)>(
    c: Config<T>, X: Sources<T>, arrivals: seq<Arrival<T>>, lossless: bool, k: nat, j: nat)
    requires SourcesSized(X, c.symbolSize) && IsField(c.F)
    requires forall i :: 0 <= i < |arrivals| ==> Acceptable(c, arrivals[i])
    requires GoodRun(c, X, arrivals, lossless)
    requires var st := Run(c, Start(), arrivals).state; k in st.rows && Get(c.F, st.rows[k].dense, j) != c.F.zero
    ensures Lacks(arrivals, j, c.symbolSize)
  {
    var st := Run(c, Start(), arrivals).state;
    RunRight(c, X, arrivals, lossless);
    assert forall id :: id in st.known.Keys ==> Absent(c.F, st.rows, id);
    if !Covered(arrivals, j) {
      RunAbsent(c, X, arrivals, lossless, j);
    }
    if Received(arrivals, j, c.symbolSize) {
      ReceivedKnown(c, X, arrivals, lossless, j);
    }
  }

  // There are fewer rows than missing symbols: as many would solve them.
  lemma FewerRows<T(!new)>(c: Config<T>, X: Sources<T>, arrivals: seq<Arrival<T>>, lossless: bool, missing: set<nat>)
    requires SourcesSized(X, c.symbolSize) && IsField(c.F)
    requires forall i :: 0 <= i < |arrivals| ==> Acceptable(c, arrivals[i])
    requires GoodRun(c, X, arrivals, lossless) && AllLacking(arrivals, missing, c.symbolSize)
    ensures var rows := Run(c, Start(), arrivals).state.rows; rows == map[] || |rows| < |missing|
  {
    var rows := Run(c, Start(), arrivals).state.rows;
    RunRight(c, X, arrivals, lossless);
    forall k | k in rows ensures k in missing {
      MentionedIsLacking(c, X, arrivals, lossless, k, k);
    }
    if rows != map[] {
      var k :| k in rows;
      var j: nat :| j != k && Get(c.F, rows[k].dense, j) != c.F.zero;
      MentionedIsLacking(c, X, arrivals, lossless, k, j);
      MoreThan(rows.Keys, j, missing);
      assert |rows| == |rows.Keys|;
    }
  }

  lemma MoreThan(keys: set<nat>, j: nat, missing: set<nat>)
    requires keys <= missing && j in missing && j !in keys
    ensures |keys| < |missing|
  {
    var others := missing - keys;
    assert missing == keys + others && j in others;
    assert |missing| == |keys| + |others|;
  }

  // In order, what is missing stays missing.
  lemma LackingGrows<T>(arrivals: seq<Arrival<T>>, missing: set<nat>, n: nat)
    requires arrivals != [] && AllLacking(arrivals, missing, n)
    requires Prompt(arrivals[..|arrivals| - 1], arrivals[|arrivals| - 1], n)
    ensures AllLacking(arrivals[..|arrivals| - 1], missing, n)
  {
    var init := arrivals[..|arrivals| - 1];
    forall id | Lacks(init, id, n) ensures id in missing {
      CoveredGrows(arrivals, id);
      if Received(arrivals, id, n) {
        ReceivedLast(arrivals, id, n);
      }
      assert Lacks(arrivals, id, n);
    }
  }

  // Truthful packets that arrive in order make a good run, without eviction if the symbols covered
  // and not received are no more than the matrix has rows.
  lemma {:induction false} InOrderGood<T(!new)>(
    c: Config<T>, X: Sources<T>, arrivals: seq<Arrival<T>>, lossless: bool, missing: set<nat>)
    requires SourcesSized(X, c.symbolSize) && IsField(c.F)
    requires forall i :: 0 <= i < |arrivals| ==> Acceptable(c, arrivals[i]) && Truthful(c, X, arrivals[i])
    requires InOrder(arrivals, c.symbolSize)
    requires lossless ==> AllLacking(arrivals, missing, c.symbolSize) && |missing| <= c.maxRows && c.maxRows > 0
    ensures GoodRun(c, X, arrivals, lossless)
  {
    if arrivals != [] {
      var init, a := arrivals[..|arrivals| - 1], arrivals[|arrivals| - 1];
      assert InOrder(init, c.symbolSize) by {
        assert forall k :: 0 <= k < |init| ==> init[..k] == arrivals[..k] && init[k] == arrivals[k];
      }
      assert Prompt(arrivals[..|init|], arrivals[|init|], c.symbolSize);
      if lossless {
        LackingGrows(arrivals, missing, c.symbolSize);
      }
      InOrderGood(c, X, init, lossless, missing);
      PromptTimely(c, X, init, a, lossless);
      if lossless {
        FewerRows(c, X, init, lossless, missing);
      }
    }
  }

  // ---------------------------------------------------------------- a stream and its channel

  ghost function SourceCount<T>(log: seq<Packet<T>>): nat {
    if log == [] then 0
    else SourceCount(log[..|log| - 1]) + if log[|log| - 1].SourcePacket? then 1 else 0
  }

  // A packet that may follow `log`: the next source, or an equation over sources already sent.
  ghost predicate Follows<T(!new)>(c: Config<T>, X: Sources<T>, log: seq<Packet<T>>, packet: Packet<T>) {
    match packet
    case SourcePacket(id, data) => id == SourceCount(log) && data == X(id)
    case CodedPacket(ev, payload) =>
      && c.F.order > 1 && WellFormed(ev) && |payload| == c.symbolSize
      && (forall id :: id in ev.ids ==> id < SourceCount(log))
      && (forall p: nat :: p < c.symbolSize ==> EquationHolds(c.F, ev, payload, Column(c.F, X, p), p))
  }

  ghost predicate IsStream<T(!new)>(c: Config<T>, X: Sources<T>, log: seq<Packet<T>>) {
    forall i :: 0 <= i < |log| ==> Follows(c, X, log[..i], log[i])
  }

  // The packets picked from the log, in its order; packets may be lost or repeated.
  ghost predicate Picked<T>(log: seq<Packet<T>>, pick: seq<nat>, arrivals: seq<Arrival<T>>) {
    && |pick| == |arrivals|
    && (forall k :: 0 <= k < |pick| ==> pick[k] < |log| && arrivals[k].packet == log[pick[k]])
    && (forall j, k :: 0 <= j < k < |pick| ==> pick[j] <= pick[k])
  }

  lemma {:induction false} CountGrows<T>(log: seq<Packet<T>>, i: nat, j: nat)
    requires i <= j <= |log|
    ensures SourceCount(log[..i]) <= SourceCount(log[..j])
  {
    if i < j {
      CountGrows(log, i, j - 1);
      assert log[..j][..j - 1] == log[..j - 1];
    }
  }

  lemma PickedInOrder<T(!new)>(
    c: Config<T>, X: Sources<T>, log: seq<Packet<T>>, pick: seq<nat>, arrivals: seq<Arrival<T>>)
    requires IsStream(c, X, log) && Picked(log, pick, arrivals)
    ensures InOrder(arrivals, c.symbolSize)
  {
    forall k | 0 <= k < |arrivals| ensures Prompt(arrivals[..k], arrivals[k], c.symbolSize) {
      if arrivals[k].packet.SourcePacket? && Covered(arrivals[..k], arrivals[k].packet.id) {
        var id := arrivals[k].packet.id;
        var j :| 0 <= j < k && arrivals[..k][j].packet.CodedPacket? && id in arrivals[..k][j].packet.ev.ids;
        assert Follows(c, X, log[..pick[j]], log[pick[j]]);
        assert Follows(c, X, log[..pick[k]], log[pick[k]]);
        assert arrivals[..k][j] == arrivals[j];
        CountGrows(log, pick[j], pick[k]);
        assert false;
      }
    }
  }

  lemma PickedTruthful<T(!new)>(
    c: Config<T>, X: Sources<T>, log: seq<Packet<T>>, pick: seq<nat>, arrivals: seq<Arrival<T>>)
    requires IsField(c.F) && c.F.order > 1 && IsStream(c, X, log) && Picked(log, pick, arrivals)
    ensures forall k :: 0 <= k < |arrivals| ==> Acceptable(c, arrivals[k]) && Truthful(c, X, arrivals[k])
  {
    forall k | 0 <= k < |arrivals| ensures Acceptable(c, arrivals[k]) && Truthful(c, X, arrivals[k]) {
      assert Follows(c, X, log[..pick[k]], log[pick[k]]);
    }
  }

  // Whatever a channel without reordering loses and repeats, every symbol delivered is the one sent.
  lemma LossyChannelExact<T(!new)>(
    c: Config<T>, X: Sources<T>, log: seq<Packet<T>>, pick: seq<nat>, arrivals: seq<Arrival<T>>)
    requires IsField(c.F) && c.F.order > 1 && SourcesSized(X, c.symbolSize)
    requires IsStream(c, X, log) && Picked(log, pick, arrivals)
    ensures forall k :: 0 <= k < |arrivals| ==> Acceptable(c, arrivals[k])
    ensures EventsRight(Run(c, Start(), arrivals).events, X)
  {
    PickedTruthful(c, X, log, pick, arrivals);
    PickedInOrder(c, X, log, pick, arrivals);
    InOrderGood(c, X, arrivals, false, {});
    RunRight(c, X, arrivals, false);
  }

  // No row is evicted, however many coded packets come, if the matrix has a row for each symbol
  // that they cover and that does not arrive itself.
  lemma LossyChannelRoomy<T(!new)>(
    c: Config<T>, X: Sources<T>, log: seq<Packet<T>>, pick: seq<nat>, arrivals: seq<Arrival<T>>, missing: set<nat>)
    requires IsField(c.F) && c.F.order > 1 && SourcesSized(X, c.symbolSize)
    requires IsStream(c, X, log) && Picked(log, pick, arrivals)
    requires AllLacking(arrivals, missing, c.symbolSize) && |missing| <= c.maxRows && c.maxRows > 0
    ensures forall k :: 0 <= k < |arrivals| ==> Acceptable(c, arrivals[k])
    ensures GoodRun(c, X, arrivals, true)
  {
    PickedTruthful(c, X, log, pick, arrivals);
    PickedInOrder(c, X, log, pick, arrivals);
    InOrderGood(c, X, arrivals, true, missing);
  }
}
