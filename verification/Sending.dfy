// What each call of a session adds to the packets sent.

module Sending {
  import opened Fields
  import opened Keys
  import opened Elimination
  import opened Equations
  import opened Windows
  import opened Decoding
  import opened Encoding
  import opened Sessions
  import opened Covers

  // A coded packet over the ids of the window that the choice selects; ascending, unless the caller
  // lists them, and just the caller's list if the window holds all of it.
  ghost predicate SentFor<T>(st: EncoderState<T>, choice: Choice, p: Packet<T>) {
    && p.CodedPacket?
    && (forall id :: id in p.ev.ids <==> Contains(st.window, id) && Selects(st, choice, id))
    && (!choice.Listed? ==> Ascending(p.ev.ids))
    && (choice.Listed? && (forall id :: id in choice.ids ==> Contains(st.window, id)) ==> p.ev.ids == choice.ids)
  }

  lemma CoverSent<T(!new)>(c: EncoderConfig<T>, st: EncoderState<T>, choice: Choice, p: Packet<T>)
    requires Orderly(st.window) && p.CodedPacket? && p.ev.ids == CoverOf(st, choice)
    ensures SentFor(st, choice, p)
  {
    CoverIs(st, choice);
    if choice.Listed? && forall id :: id in choice.ids ==> Contains(st.window, id) {
      forall id | id in choice.ids ensures id in IdsOf(st.window.symbols) {
        ContainsIds(st.window, id);
      }
      AskedAll(IdsOf(st.window.symbols), choice.ids);
    }
  }

  // The log grows by one packet, and nothing that was sent changes.
  ghost predicate OneMore<T>(log: seq<Packet<T>>, longer: seq<Packet<T>>, p: Packet<T>) {
    longer == log + [p]
  }

  lemma GenerateEmits<T(!new)>(c: EncoderConfig<T>, s: Session<T>, choice: Choice) returns (p: Packet<T>)
    requires Built(c) && Sane(c, s.state.window) && CoverOf(s.state, choice) != []
    ensures OneMore(s.log, Apply(c, s, Generating(choice)).log, p) && SentFor(s.state, choice, p)
  {
    var cover := CoverOf(s.state, choice);
    FindsInWindow(c, s.state.window, cover);
    VectorFormed(c, s.state.at, cover);
    p := MakePacket(c, s.state, cover);
    CoverSent(c, s.state, choice, p);
  }

  // One packet for what the choice selects, and none if it selects nothing.
  lemma GenerateSends<T(!new)>(c: EncoderConfig<T>, s: Session<T>, choice: Choice)
    requires Built(c) && Sane(c, s.state.window)
    ensures (exists id :: Contains(s.state.window, id) && Selects(s.state, choice, id)) ==>
      exists p :: OneMore(s.log, Apply(c, s, Generating(choice)).log, p) && SentFor(s.state, choice, p)
    ensures !(exists id :: Contains(s.state.window, id) && Selects(s.state, choice, id)) ==>
      Apply(c, s, Generating(choice)) == s
  {
    var cover := CoverOf(s.state, choice);
    CoverIs(s.state, choice);
    if cover != [] {
      assert cover[0] in cover;
      var p := GenerateEmits(c, s, choice);
    }
  }

  // ---------------------------------------------------------------- a submission

  ghost predicate WholeCover<T>(w: Window<T>, p: Packet<T>) {
    p.CodedPacket? && Ascending(p.ev.ids) && forall id :: id in p.ev.ids <==> Contains(w, id)
  }

  // The window is w, and what came after `base` covers it.
  ghost predicate AllWhole<T>(w: Window<T>, base: seq<Packet<T>>, s: Session<T>) {
    && s.state.window == w && base <= s.log
    && forall i :: |base| <= i < |s.log| ==> WholeCover(w, s.log[i])
  }

  lemma GenerateWhole<T(!new)>(c: EncoderConfig<T>, w: Window<T>, base: seq<Packet<T>>, s: Session<T>)
    requires Built(c) && Sane(c, w) && AllWhole(w, base, s)
    ensures AllWhole(w, base, Apply(c, s, Generating(Everything)))
  {
    var r := Apply(c, s, Generating(Everything));
    if CoverOf(s.state, Everything) != [] {
      var p := GenerateEmits(c, s, Everything);
    }
    forall i | |base| <= i < |r.log| ensures WholeCover(w, r.log[i]) {
      if i < |s.log| {
        assert r.log[i] == s.log[i];
      }
    }
  }

  // An accepted submission sends the symbol under the next id, and then coded packets, each over the
  // whole window with the symbol in it.
  lemma SubmitSends<T(!new)>(c: EncoderConfig<T>, s: Session<T>, data: seq<T>)
    requires Built(c) && Sane(c, s.state.window) && Submit(c, s.state, data).Accepted?
    ensures var r := Apply(c, s, Submitting(data));
            && s.log + [SourcePacket(s.state.window.nextId, data)] <= r.log
            && Contains(r.state.window, s.state.window.nextId)
            && forall i :: |s.log| < i < |r.log| ==> WholeCover(r.state.window, r.log[i])
  {
    var mid, n := MidSubmit(c, s, data), Redundancy(c, s.state.fecCalls);
    var w := mid.state.window;
    SubmitIsBurst(c, s, data);
    forall t: Session<T> | Sane(c, t.state.window) && AllWhole(w, mid.log, t)
      ensures AllWhole(w, mid.log, Apply(c, t, Generating(Everything)))
    {
      GenerateWhole(c, w, mid.log, t);
    }
    BurstKept(c, mid, n, t => AllWhole(w, mid.log, t));
    assert Symbol(s.state.window.nextId, data) in w.symbols;
  }
}
