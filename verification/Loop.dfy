// Encoder and decoders together: the reports that the encoder hears are those that decoders made, and
// what its window drops is settled where the policy asks for it.

module Loops {
  import Counting
  import opened Fields
  import opened Elimination
  import opened Windows
  import opened Delivery
  import opened Decoding
  import opened Acks
  import opened ClosedLoop
  import opened Encoding
  import opened Sessions
  import opened Policies
  import opened Reporting
  import F = Feedback

  datatype Joint<T> = Joint(net: Net<T>, s: Session<T>)

  // A call on the encoder, a packet that arrives at a decoder, or a report of a decoder that arrives at
  // the encoder: late, again, or before an older one.
  datatype Action<T> =
    | Call(op: Op<T>)
    | Deliver(rid: nat, arrival: Arrival<T>)
    | Hear(rid: nat, i: nat)

  function MoveOf<T>(a: Action<T>): Move<T> {
    match a
    case Call(_) => Pause
    case Deliver(rid, arrival) => Arrive(rid, arrival)
    case Hear(rid, i) => Acknowledge(rid, i)
  }

  ghost predicate Allowed<T(!new)>(c: EncoderConfig<T>, dc: Config<T>, j: Joint<T>, a: Action<T>) {
    && Built(c) && Sane(c, j.s.state.window)
    && Possible(dc, j.net, MoveOf(a))
    && (a.Call? ==> !a.op.Hearing?)
  }

  ghost function SessionStep<T(!new)>(c: EncoderConfig<T>, dc: Config<T>, j: Joint<T>, a: Action<T>): Session<T>
    requires Allowed(c, dc, j, a)
  {
    match a
    case Call(op) => Apply(c, j.s, op)
    case Deliver(_, _) => j.s
    case Hear(rid, i) => Apply(c, j.s, Hearing(rid, j.net.receivers[rid].sent[i]))
  }

  ghost function JointStep<T(!new)>(c: EncoderConfig<T>, dc: Config<T>, j: Joint<T>, a: Action<T>): Joint<T>
    requires Allowed(c, dc, j, a)
  {
    Joint(NetStep(dc, j.net, MoveOf(a)), SessionStep(c, dc, j, a))
  }

  ghost predicate JointPath<T(!new)>(c: EncoderConfig<T>, dc: Config<T>, js: seq<Joint<T>>, acts: seq<Action<T>>) {
    && |js| == |acts| + 1 && js[0] == Joint(Net(map[], map[]), Opening(c))
    && forall k :: 0 <= k < |acts| ==> Allowed(c, dc, js[k], acts[k]) && js[k + 1] == JointStep(c, dc, js[k], acts[k])
  }

  // ---------------------------------------------------------------- each side of it

  ghost function Nets<T>(js: seq<Joint<T>>): (r: seq<Net<T>>)
    ensures |r| == |js| && forall k :: 0 <= k < |r| ==> r[k] == js[k].net
  {
    seq(|js|, k requires 0 <= k < |js| => js[k].net)
  }

  ghost function Moves<T>(acts: seq<Action<T>>): (r: seq<Move<T>>)
    ensures |r| == |acts| && forall k :: 0 <= k < |r| ==> r[k] == MoveOf(acts[k])
  {
    seq(|acts|, k requires 0 <= k < |acts| => MoveOf(acts[k]))
  }

  lemma DecodersPath<T(!new)>(c: EncoderConfig<T>, dc: Config<T>, js: seq<Joint<T>>, acts: seq<Action<T>>)
    requires JointPath(c, dc, js, acts)
    ensures Path(dc, Nets(js), Moves(acts))
  {
    var nets, moves := Nets(js), Moves(acts);
    forall k | 0 <= k < |moves|
      ensures Possible(dc, nets[k], moves[k]) && nets[k + 1] == NetStep(dc, nets[k], moves[k])
    {
      assert Allowed(c, dc, js[k], acts[k]) && js[k + 1] == JointStep(c, dc, js[k], acts[k]);
    }
  }

  // The encoder holds as acknowledged what the network has brought it.
  lemma {:induction false} InStep<T(!new)>(
    c: EncoderConfig<T>, dc: Config<T>, js: seq<Joint<T>>, acts: seq<Action<T>>, k: nat)
    requires JointPath(c, dc, js, acts) && k < |js|
    ensures js[k].s.state.receivers == js[k].net.acks
  {
    if k > 0 {
      InStep(c, dc, js, acts, k - 1);
      StepInStep(c, dc, js[k - 1], acts[k - 1]);
    }
  }

  lemma StepInStep<T(!new)>(c: EncoderConfig<T>, dc: Config<T>, j: Joint<T>, a: Action<T>)
    requires Allowed(c, dc, j, a) && j.s.state.receivers == j.net.acks
    ensures JointStep(c, dc, j, a).s.state.receivers == JointStep(c, dc, j, a).net.acks
  {
    match a
    case Call(op) => EntriesAfter(c, j.s, op);
    case Deliver(_, _) =>
    case Hear(rid, i) => EntriesAfter(c, j.s, Hearing(rid, j.net.receivers[rid].sent[i]));
  }

  // ---------------------------------------------------------------- what the window drops

  // An id is removed by a report, and because of what the policy makes of the entries after it.
  lemma StepRemoves<T(!new)>(c: EncoderConfig<T>, dc: Config<T>, j: Joint<T>, a: Action<T>, id: nat)
    requires Allowed(c, dc, j, a) && j.s.state.receivers == j.net.acks
    requires id in JointStep(c, dc, j, a).s.removed && id !in j.s.removed
    ensures a.Hear? && Contains(j.s.state.window, id) && Drops(c.policy, JointStep(c, dc, j, a).net.acks, id)
  {
    StepInStep(c, dc, j, a);
    if a.Hear? {
      HearingDrops(c, j.s, a.rid, j.net.receivers[a.rid].sent[a.i], id);
    }
  }

  ghost predicate Grown(sets: seq<set<nat>>, i: nat)
    requires i + 1 < |sets|
  {
    sets[i] <= sets[i + 1]
  }

  lemma {:induction false} Growing(sets: seq<set<nat>>, m: nat, k: nat)
    requires forall i {:trigger Grown(sets, i)} :: 0 <= i < |sets| - 1 ==> Grown(sets, i)
    requires m <= k < |sets|
    ensures sets[m] <= sets[k]
  {
    if m < k {
      Growing(sets, m, k - 1);
      assert Grown(sets, k - 1);
    }
  }

  lemma SettledGrows<T(!new)>(c: Config<T>, nets: seq<Net<T>>, moves: seq<Move<T>>, m: nat, k: nat, id: nat)
    requires Path(c, nets, moves) && m <= k < |nets|
    ensures SettledAt(nets[m], id) <= SettledAt(nets[k], id)
  {
    var sets := seq(|nets|, i requires 0 <= i < |nets| => SettledAt(nets[i], id));
    forall i | 0 <= i < |sets| - 1 ensures Grown(sets, i) {
      SettledOnce(c, nets[i], moves[i], id);
    }
    Growing(sets, m, k);
  }

  lemma SettledOnce<T(!new)>(c: Config<T>, net: Net<T>, move: Move<T>, id: nat)
    requires Possible(c, net, move)
    ensures SettledAt(net, id) <= SettledAt(NetStep(c, net, move), id)
  {
    if move.Arrive? {
      StepGrows(c, ReceiverOf(net, move.rid).state, move.arrival);
    }
  }

  lemma {:induction false} Switch(flags: seq<bool>, k: nat) returns (m: nat)
    requires k < |flags| && !flags[0] && flags[k]
    ensures m < k && !flags[m] && flags[m + 1]
  {
    if flags[k - 1] {
      m := Switch(flags, k - 1);
    } else {
      m := k - 1;
    }
  }

  lemma RemovedAt<T(!new)>(
    c: EncoderConfig<T>, dc: Config<T>, js: seq<Joint<T>>, acts: seq<Action<T>>, k: nat, id: nat) returns (m: nat)
    requires JointPath(c, dc, js, acts) && k < |js| && id in js[k].s.removed
    ensures m < k && id !in js[m].s.removed && id in js[m + 1].s.removed
  {
    m := Switch(seq(|js|, i requires 0 <= i < |js| => id in js[i].s.removed), k);
  }

  // In every run: an id that the policy has removed was removed by the m-th action, a report; and from
  // then on it is settled at every receiver heard of by then, under the all-policy, at one of them under
  // the any-policy, and at a quorum under a quorum.
  lemma RemovedAreSettled<T(!new)>(
    c: EncoderConfig<T>, dc: Config<T>, js: seq<Joint<T>>, acts: seq<Action<T>>, k: nat, id: nat) returns (m: nat)
    requires JointPath(c, dc, js, acts) && k < |js| && id in js[k].s.removed
    ensures m < k && acts[m].Hear? && Contains(js[m].s.state.window, id)
    ensures c.policy == AllAck ==> js[m + 1].net.acks.Keys <= SettledAt(js[k].net, id)
    ensures c.policy == AnyAck ==> js[m + 1].net.acks.Keys * SettledAt(js[k].net, id) != {}
    ensures c.policy.QuorumAck? ==> c.policy.quorum <= |SettledAt(js[k].net, id)|
  {
    m := RemovedAt(c, dc, js, acts, k, id);
    InStep(c, dc, js, acts, m);
    StepRemoves(c, dc, js[m], acts[m], id);
    DecodersPath(c, dc, js, acts);
    DropsAreSettled(dc, Nets(js), Moves(acts), m + 1, c.policy, id);
    SettledGrows(dc, Nets(js), Moves(acts), m + 1, k, id);
    Counting.SubsetCard(SettledAt(js[m + 1].net, id), SettledAt(js[k].net, id));
    if c.policy == AnyAck {
      var rid :| rid in js[m + 1].net.acks.Keys * SettledAt(js[m + 1].net, id);
      assert rid in js[m + 1].net.acks.Keys * SettledAt(js[k].net, id);
    }
  }

  // ---------------------------------------------------------------- what it no longer holds

  lemma StepHears<T(!new)>(c: EncoderConfig<T>, dc: Config<T>, j: Joint<T>, a: Action<T>, id: nat)
    requires Allowed(c, dc, j, a) && j.s.state.receivers == j.net.acks && a.Hear?
    ensures var r := JointStep(c, dc, j, a);
            && (Contains(r.s.state.window, id) <==> Contains(j.s.state.window, id) && !Drops(c.policy, r.net.acks, id))
            && a.rid in r.net.acks
  {
    StepInStep(c, dc, j, a);
    HearingDrops(c, j.s, a.rid, j.net.receivers[a.rid].sent[a.i], id);
  }

  lemma PathHears<T(!new)>(
    c: EncoderConfig<T>, dc: Config<T>, js: seq<Joint<T>>, acts: seq<Action<T>>, m: nat, id: nat)
    requires JointPath(c, dc, js, acts) && m < |acts| && acts[m].Hear?
    ensures Contains(js[m + 1].s.state.window, id)
       <==> Contains(js[m].s.state.window, id) && !Drops(c.policy, js[m + 1].net.acks, id)
    ensures acts[m].rid in js[m + 1].net.acks
  {
    InStep(c, dc, js, acts, m);
    StepHears(c, dc, js[m], acts[m], id);
  }

  ghost predicate Told<T(!new)>(dc: Config<T>, r: Receiver<T>, a: Arrival<T>, id: nat)
    requires Acceptable(dc, a) && Sized(dc, r.state)
  {
    Reportable(AtReport(dc, r.state, a), id)
  }

  // And the converse, for what the decoders report: once the encoder hears a report, it holds as
  // acknowledged what it held and what was reportable where that report was made.
  lemma HeardIsTold<T(!new)>(
    c: EncoderConfig<T>, dc: Config<T>, js: seq<Joint<T>>, acts: seq<Action<T>>,
    k: nat, m: nat, rid: nat, a: Arrival<T>, id: nat)
    requires JointPath(c, dc, js, acts) && k < m < |acts|
    requires acts[k] == Deliver(rid, a) && a.report && RightSize(dc, a)
    requires acts[m] == Hear(rid, |SentBy(js[k].net, rid)|)
    ensures Acceptable(dc, a) && Sized(dc, ReceiverOf(js[k].net, rid).state)
    ensures IsAcked(js[m + 1].net.acks, rid, id)
       <==> IsAcked(js[m].net.acks, rid, id) || Told(dc, ReceiverOf(js[k].net, rid), a, id)
  {
    DecodersPath(c, dc, js, acts);
    HeardIsAcked(dc, Nets(js), Moves(acts), k, m, rid, a, id);
  }

  // Under the any-policy its window then holds an id exactly if it did, nobody had acknowledged it, and
  // this report does not.
  lemma HeardIsGone<T(!new)>(
    c: EncoderConfig<T>, dc: Config<T>, js: seq<Joint<T>>, acts: seq<Action<T>>,
    k: nat, m: nat, rid: nat, a: Arrival<T>, id: nat)
    requires JointPath(c, dc, js, acts) && k < m < |acts| && c.policy == AnyAck
    requires acts[k] == Deliver(rid, a) && a.report && RightSize(dc, a)
    requires acts[m] == Hear(rid, |SentBy(js[k].net, rid)|)
    ensures Acceptable(dc, a) && Sized(dc, ReceiverOf(js[k].net, rid).state)
    ensures Contains(js[m + 1].s.state.window, id)
       <==> Contains(js[m].s.state.window, id) && AckedBy(js[m].net.acks, id) == {}
            && !Told(dc, ReceiverOf(js[k].net, rid), a, id)
  {
    HeardIsTold(c, dc, js, acts, k, m, rid, a, id);
    PathHears(c, dc, js, acts, m, id);
    OthersStay(c, dc, js[m], acts[m], id);
    NobodyAcks(js[m].net.acks, id);
    NobodyAcks(js[m + 1].net.acks, id);
  }

  lemma NobodyAcks(receivers: Receivers, id: nat)
    ensures AckedBy(receivers, id) == {} <==> !Drops(AnyAck, receivers, id)
  {
    if Drops(AnyAck, receivers, id) {
      var rid :| rid in receivers && IsAcked(receivers, rid, id);
      assert rid in AckedBy(receivers, id);
    }
  }

  lemma OthersStay<T(!new)>(c: EncoderConfig<T>, dc: Config<T>, j: Joint<T>, a: Action<T>, id: nat)
    requires Allowed(c, dc, j, a) && a.Hear?
    ensures forall rid: nat :: rid != a.rid ==>
      (IsAcked(JointStep(c, dc, j, a).net.acks, rid, id) <==> IsAcked(j.net.acks, rid, id))
  {
  }
}
