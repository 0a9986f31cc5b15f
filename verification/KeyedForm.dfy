// What is left of the reduced form when source symbols may arrive in any order: a row whose key
// is known has lost its pivot, and every other row still leads at its key.

module KeyedForm {
  import opened Fields
  import opened Keys
  import opened Rows
  import opened Elimination
  import opened Echelon
  import opened Recovery
  import opened Incremental
  import opened StalePivots

  ghost predicate Apart<T>(F: Field<T>, M: Matrix<T>) {
    forall k, i :: k in M && i in M && i != k ==> Get(F, M[i].dense, k) == F.zero
  }

  ghost predicate Keyed<T>(F: Field<T>, M: Matrix<T>, known: set<nat>) {
    Clean(F, M, known) && Apart(F, M) && forall k :: k in M ==> k in known || Leads(F, M[k], k)
  }

  lemma KeyedPart<T(!new)>(F: Field<T>, M: Matrix<T>, N: Matrix<T>, known: set<nat>)
    requires Keyed(F, M, known) && forall k :: k in N ==> k in M && N[k] == M[k]
    ensures Keyed(F, N, known)
  {
    forall id | id in known ensures Absent(F, N, id) {
      assert Absent(F, M, id);
    }
  }

  lemma KeyedSubstitute<T(!new)>(F: Field<T>, M: Matrix<T>, id: nat, data: seq<T>, known: set<nat>)
    requires Shaped(M, |data|) && Keyed(F, M, known)
    ensures Keyed(F, SubstituteRows(F, M, id, data), known + {id})
  {
    SubstituteClean(F, M, id, data, known);
  }

  // A row left with one id: its key with coefficient one, unless the key is known.
  lemma OnlyIsKey<T(!new)>(F: Field<T>, M: Matrix<T>, known: set<nat>, k: nat, j: nat)
    requires F.one != F.zero && Keyed(F, M, known) && k in M && Only(F, M[k].dense, j)
    ensures j !in known && (j in M ==> j == k)
    ensures k !in known ==> j == k && Get(F, M[k].dense, k) == F.one
  {
    assert forall id :: id in known ==> Absent(F, M, id);
    assert k !in known ==> Leads(F, M[k], k);
  }

  // ---------------------------------------------------------------- the rows a symbol solves

  ghost predicate UnitRow<T>(F: Field<T>, r: Row<T>, id: nat) {
    Only(F, r.dense, id) && Get(F, r.dense, id) == F.one
  }

  ghost predicate UnitRows<T>(F: Field<T>, M: Matrix<T>, solved: seq<nat>) {
    forall j :: j in solved && j in M ==> UnitRow(F, M[j], j)
  }

  lemma {:induction false} SolvedAreUnits<T(!new)>(
    F: Field<T>, M: Matrix<T>, N: Matrix<T>, keys: seq<nat>, id: nat, known: set<nat>)
    requires F.one != F.zero && Keyed(F, N, known)
    requires forall i :: 0 <= i < |keys| ==> keys[i] in M && keys[i] in N
    ensures UnitRows(F, N, NewlySolved(F, M, N, keys, id))
    ensures forall j :: j in NewlySolved(F, M, N, keys, id) ==> j !in known
  {
    if keys != [] {
      var init, k := keys[..|keys| - 1], keys[|keys| - 1];
      SolvedAreUnits(F, M, N, init, id, known);
      var s := IsSolved(F, N[k].dense);
      if s.Some? {
        IsSolvedOnly(F, N[k].dense, s.value);
        OnlyIsKey(F, N, known, k, s.value);
      }
    }
  }

  // A true row with nothing but one id at coefficient one holds the symbol.
  lemma UnitHolds<T(!new)>(F: Field<T>, r: Row<T>, id: nat, x: Assignment<T>, p: nat)
    requires IsField(F) && p < |r.payload| && UnitRow(F, r, id) && Residual(F, r, x, p) == F.zero
    ensures x(id) == r.payload[p]
  {
    SolvedPayload(F, r, id, x, p);
  }

  lemma TakeRight<T(!new)>(F: Field<T>, b: Cascade<T>, id: nat, n: nat, x: Assignment<T>, p: nat)
    requires IsField(F) && CascadeShaped(b, n) && p < n && id in b.rows && UnitRow(F, b.rows[id], id)
    requires Solves(F, b.rows, x, p) && Agrees(b.queue, x, p) && Agrees(b.recovered, x, p)
    ensures var sym := Symbol(id, b.rows[id].payload);
            Solves(F, b.rows - {id}, x, p) && Agrees(b.queue + [sym], x, p) && Agrees(b.recovered + [sym], x, p)
  {
    UnitHolds(F, b.rows[id], id, x, p);
  }

  // What Extract finds among true rows is right, and is queued.
  lemma {:induction false} ExtractRight<T(!new)>(
    F: Field<T>, c: Cascade<T>, solved: seq<nat>, known: set<nat>, n: nat, x: Assignment<T>, p: nat)
    requires IsField(F) && CascadeShaped(c, n) && p < n && UnitRows(F, c.rows, solved)
    requires Solves(F, c.rows, x, p) && Agrees(c.queue, x, p) && Agrees(c.recovered, x, p)
    ensures var r := Extract(c, solved, known);
            Solves(F, r.rows, x, p) && Agrees(r.queue, x, p) && Agrees(r.recovered, x, p)
  {
    if solved != [] {
      var init, id := solved[..|solved| - 1], solved[|solved| - 1];
      ExtractRight(F, c, init, known, n, x, p);
      ExtractRows(c, init, known);
      var b := Extract(c, init, known);
      if id in b.rows {
        TakeRight(F, b, id, n, x, p);
      }
    }
  }

  lemma {:induction false} ExtractQueues<T(!new)>(c: Cascade<T>, solved: seq<nat>, known: set<nat>)
    requires forall j :: j in solved && j in c.rows ==> j !in known
    ensures var r := Extract(c, solved, known);
            && Ids(r.recovered) <= Ids(c.recovered) + Ids(r.queue)
            && Ids(c.queue) <= Ids(r.queue) <= Ids(c.queue) + Ids(r.recovered)
            && Ids(c.recovered) <= Ids(r.recovered)
  {
    if solved != [] {
      var init, id := solved[..|solved| - 1], solved[|solved| - 1];
      ExtractQueues(c, init, known);
      ExtractRows(c, init, known);
      var b, r := Extract(c, init, known), Extract(c, solved, known);
      if id in b.rows {
        IdsAppend(b.queue, Symbol(id, b.rows[id].payload));
        IdsAppend(b.recovered, Symbol(id, b.rows[id].payload));
      }
    }
  }

  lemma IdsAppend<T>(s: seq<Symbol<T>>, sym: Symbol<T>)
    ensures Ids(s + [sym]) == Ids(s) + {sym.id}
  {
    var t := s + [sym];
    assert t[|s|] == sym;
    forall id | id in Ids(s) ensures id in Ids(t) {
      var i :| 0 <= i < |s| && s[i].id == id;
      assert t[i].id == id;
    }
  }

  lemma IdsFirst<T>(s: seq<Symbol<T>>)
    requires s != []
    ensures Ids(s) == {s[0].id} + Ids(s[1..])
  {
    forall id | id in Ids(s) ensures id == s[0].id || id in Ids(s[1..]) {
      var i :| 0 <= i < |s| && s[i].id == id;
      assert i > 0 ==> s[1..][i - 1] == s[i];
    }
    forall id | id in Ids(s[1..]) ensures id in Ids(s) {
      var i :| 0 <= i < |s[1..]| && s[1..][i].id == id;
      assert s[i + 1].id == id;
    }
  }

  // ---------------------------------------------------------------- the work queue

  // Every symbol found is known or waits in the queue.
  ghost predicate Pending<T>(c: Cascade<T>, known: set<nat>) {
    Ids(c.recovered) <= known + Ids(c.queue)
  }

  lemma TurnKeyed<T(!new)>(F: Field<T>, c: Cascade<T>, known: set<nat>, n: nat)
    requires F.one != F.zero && CascadeShaped(c, n) && c.queue != [] && Keyed(F, c.rows, known) && Pending(c, known)
    ensures var t, next := Turn(F, c, known, n), known + {c.queue[0].id};
            && Keyed(F, t.rows, next) && Pending(t, next)
            && known + Ids(c.queue) <= next + Ids(t.queue) <= known + Ids(c.queue) + Ids(t.recovered)
    ensures UnitRows(F, Substituted(F, c, n).rows, SolvedBy(F, c.rows, c.queue[0].id, c.queue[0].data))
  {
    var id, s := c.queue[0].id, Substituted(F, c, n);
    var solved, next := SolvedBy(F, c.rows, id, c.queue[0].data), known + {id};
    KeyedSubstitute(F, c.rows, id, c.queue[0].data, known);
    SortedIn(c.rows.Keys);
    SolvedAreUnits(F, c.rows, s.rows, Sorted(c.rows.Keys), id, next);
    ExtractRows(s, solved, next);
    KeyedPart(F, s.rows, Turn(F, c, known, n).rows, next);
    ExtractQueues(s, solved, next);
    IdsFirst(c.queue);
  }

  // Whatever the queue holds, the rows stay keyed, and all that was found is known to them.
  lemma {:induction false} CascadeKeyed<T(!new)>(F: Field<T>, c: Cascade<T>, known: set<nat>, n: nat)
    requires F.one != F.zero && CascadeShaped(c, n) && Keyed(F, c.rows, known) && Pending(c, known)
    ensures var o := AddKnown(F, c, known, n);
            Keyed(F, o.rows, known + Ids(c.queue) + Ids(o.recovered))
    decreases |c.rows| + |c.queue|
  {
    if c.queue == [] {
      assert known + Ids(c.queue) + Ids(c.recovered) == known;
    } else {
      var t, next := Turn(F, c, known, n), known + {c.queue[0].id};
      TurnKeyed(F, c, known, n);
      CascadeKeyed(F, t, next, n);
      CascadeFinds(F, t, next, n);
      var found := Ids(AddKnown(F, c, known, n).recovered);
      assert known + Ids(c.queue) + found == next + Ids(t.queue) + found;
    }
  }

  lemma {:induction false} ExtractFinds<T(!new)>(c: Cascade<T>, solved: seq<nat>, known: set<nat>)
    ensures Ids(c.recovered) <= Ids(Extract(c, solved, known).recovered)
  {
    if solved != [] {
      var init, id := solved[..|solved| - 1], solved[|solved| - 1];
      ExtractFinds(c, init, known);
      var b := Extract(c, init, known);
      if id in b.rows {
        IdsAppend(b.recovered, Symbol(id, b.rows[id].payload));
      }
    }
  }

  lemma {:induction false} CascadeFinds<T(!new)>(F: Field<T>, c: Cascade<T>, known: set<nat>, n: nat)
    requires CascadeShaped(c, n)
    ensures Ids(c.recovered) <= Ids(AddKnown(F, c, known, n).recovered)
    decreases |c.rows| + |c.queue|
  {
    if c.queue != [] {
      var id := c.queue[0].id;
      ExtractFinds(Substituted(F, c, n), SolvedBy(F, c.rows, id, c.queue[0].data), known + {id});
      CascadeFinds(F, Turn(F, c, known, n), known + {id}, n);
    }
  }

  lemma {:induction false} CascadeRight<T(!new)>(
    F: Field<T>, c: Cascade<T>, known: set<nat>, n: nat, x: Assignment<T>, p: nat)
    requires IsField(F) && CascadeShaped(c, n) && p < n && Keyed(F, c.rows, known) && Pending(c, known)
    requires Solves(F, c.rows, x, p) && Agrees(c.queue, x, p) && Agrees(c.recovered, x, p)
    ensures var o := AddKnown(F, c, known, n);
            Solves(F, o.rows, x, p) && Agrees(o.recovered, x, p)
    decreases |c.rows| + |c.queue|
  {
    if c.queue != [] {
      var s, id := Substituted(F, c, n), c.queue[0].id;
      TurnKeyed(F, c, known, n);
      SubstitutedKeeps(F, c, n, x, p);
      ExtractRight(F, s, SolvedBy(F, c.rows, id, c.queue[0].data), known + {id}, n, x, p);
      CascadeRight(F, Turn(F, c, known, n), known + {id}, n, x, p);
    }
  }

  lemma SubstitutedKeeps<T(!new)>(F: Field<T>, c: Cascade<T>, n: nat, x: Assignment<T>, p: nat)
    requires IsField(F) && CascadeShaped(c, n) && c.queue != [] && p < n
    requires Solves(F, c.rows, x, p) && Agrees(c.queue, x, p)
    ensures Solves(F, Substituted(F, c, n).rows, x, p) && Agrees(Substituted(F, c, n).queue, x, p)
  {
    assert x(c.queue[0].id) == c.queue[0].data[p];
    SubstituteSolves(F, c.rows, c.queue[0].id, c.queue[0].data, x, p);
    assert forall i :: 0 <= i < |c.queue[1..]| ==> c.queue[1..][i] == c.queue[i + 1];
  }

  // A source that arrives late finds no wrong symbol: only the rows it solves at their key come out.
  lemma LearnKeyed<T(!new)>(F: Field<T>, M: Matrix<T>, id: nat, data: seq<T>, known: set<nat>)
    requires F.one != F.zero && Shaped(M, |data|) && Keyed(F, M, known)
    ensures var o := Learn(F, M, id, data, known + {id});
            Keyed(F, o.rows, known + {id} + Ids(o.recovered))
  {
    FromOne(F, M, Symbol(id, data), known, |data|);
  }

  // The queue starts with one symbol, which the caller already counts as known.
  lemma FromOne<T(!new)>(F: Field<T>, M: Matrix<T>, sym: Symbol<T>, known: set<nat>, n: nat)
    requires F.one != F.zero && Shaped(M, n) && |sym.data| == n && Keyed(F, M, known)
    ensures var o := AddKnown(F, Cascade(M, [sym], []), known + {sym.id}, n);
            Keyed(F, o.rows, known + {sym.id} + Ids(o.recovered))
  {
    var c, k := Cascade(M, [sym], []), known + {sym.id};
    var t := Turn(F, c, known, n);
    TurnKeyed(F, c, known, n);
    assert k + {sym.id} == k;
    assert Turn(F, c, k, n) == t;
    CascadeKeyed(F, t, k, n);
    CascadeFinds(F, t, k, n);
    SameKnown(k, {sym.id}, Ids(t.queue), Ids(t.recovered), Ids(AddKnown(F, c, k, n).recovered));
  }

  lemma SameKnown(k: set<nat>, first: set<nat>, queued: set<nat>, some: set<nat>, found: set<nat>)
    requires first <= k && queued <= k + some && some <= found
    ensures k + queued + found == k + found
  {
  }

  lemma FromOneRight<T(!new)>(
    F: Field<T>, M: Matrix<T>, sym: Symbol<T>, known: set<nat>, n: nat, x: Assignment<T>, p: nat)
    requires IsField(F) && Shaped(M, n) && |sym.data| == n && Keyed(F, M, known) && p < n
    requires Solves(F, M, x, p) && x(sym.id) == sym.data[p]
    ensures var o := AddKnown(F, Cascade(M, [sym], []), known + {sym.id}, n);
            Solves(F, o.rows, x, p) && Agrees(o.recovered, x, p)
  {
    var c, k := Cascade(M, [sym], []), known + {sym.id};
    var t := Turn(F, c, known, n);
    TurnKeyed(F, c, known, n);
    assert k + {sym.id} == k;
    SubstitutedKeeps(F, c, n, x, p);
    ExtractRight(F, Substituted(F, c, n), SolvedBy(F, M, sym.id, sym.data), k, n, x, p);
    CascadeRight(F, t, k, n, x, p);
  }

  // ---------------------------------------------------------------- a new row

  lemma {:induction false} ForwardKeyed<T(!new)>(
    F: Field<T>, M: Matrix<T>, pivots: seq<nat>, r: Row<T>, j: nat, known: set<nat>)
    requires IsField(F) && Shaped(M, |r.payload|) && Keyed(F, M, known) && j in M && j !in known
    requires forall i :: 0 <= i < |pivots| ==> pivots[i] in M
    ensures Get(F, ForwardEliminate(F, M, pivots, r).dense, j) == if j in pivots then F.zero else Get(F, r.dense, j)
  {
    if pivots != [] {
      var init := pivots[..|pivots| - 1];
      var k := pivots[|pivots| - 1];
      assert j in pivots <==> j in init || j == k;
      ForwardKeyed(F, M, init, r, j, known);
      ReduceGet(F, ForwardEliminate(F, M, init, r), k, M[k], j);
    }
  }

  ghost predicate Misses<T>(F: Field<T>, r: Row<T>, ids: set<nat>) {
    forall id :: id in ids ==> Get(F, r.dense, id) == F.zero
  }

  // What elimination leaves of an equation without known ids mentions neither keys nor known ids.
  lemma NewRowKeyed<T(!new)>(F: Field<T>, M: Matrix<T>, r: Row<T>, known: set<nat>)
    requires IsField(F) && Shaped(M, |r.payload|) && Keyed(F, M, known) && Misses(F, r, known)
    requires NewRow(F, M, r).Some?
    ensures var t := NewRow(F, M, r).value;
            && PivotId(F, t.dense).Some?
            && Leads(F, t, PivotId(F, t.dense).value)
            && Misses(F, t, M.Keys) && Misses(F, t, known)
  {
    var keys, s := Sorted(M.Keys), Forward(F, M, r);
    SortedIn(M.Keys);
    SortedMembers(M.Keys);
    forall j | j in M.Keys || j in known ensures Get(F, s.dense, j) == F.zero {
      if j in known {
        assert Absent(F, M, j);
        ForwardKeeps(F, M, keys, r, j);
      } else {
        ForwardKeyed(F, M, keys, r, j, known);
      }
    }
    NormalizeCorrect(F, s);
  }

  lemma BackKeyed<T(!new)>(F: Field<T>, M: Matrix<T>, r: Row<T>, q: nat, k: nat, known: set<nat>)
    requires IsField(F) && Shaped(M, |r.payload|) && Keyed(F, M, known) && k in M
    requires Leads(F, r, q) && Misses(F, r, M.Keys) && Misses(F, r, known)
    ensures var s := Reduce(F, M[k], q, r);
            && (k in known || Leads(F, s, k))
            && Get(F, s.dense, q) == F.zero && Misses(F, s, known)
            && forall i :: i in M && i != k ==> Get(F, s.dense, i) == F.zero
  {
    ReduceGet(F, M[k], q, r, k);
    ReduceGet(F, M[k], q, r, q);
    var s := Reduce(F, M[k], q, r);
    forall j: nat | j in known || (j in M && j != k) ensures Get(F, s.dense, j) == F.zero {
      ReduceGet(F, M[k], q, r, j);
      assert j in known ==> Absent(F, M, j);
    }
    if k !in known {
      forall j: nat | j < k ensures Get(F, s.dense, j) == F.zero {
        ReduceGet(F, M[k], q, r, j);
        if Get(F, r.dense, j) != F.zero {
          assert q <= j;
        }
      }
    }
  }

  lemma InsertKeyed<T(!new)>(F: Field<T>, M: Matrix<T>, maxRows: nat, r: Row<T>, known: set<nat>)
    requires IsField(F) && Shaped(M, |r.payload|) && Keyed(F, M, known) && PivotId(F, r.dense).Some?
    requires Leads(F, r, PivotId(F, r.dense).value) && Misses(F, r, M.Keys) && Misses(F, r, known)
    ensures Keyed(F, InsertRow(F, M, maxRows, r), known)
  {
    var q, N := PivotId(F, r.dense).value, InsertRow(F, M, maxRows, r);
    forall k | k in N && k != q
      ensures (k in known || Leads(F, N[k], k)) && Get(F, N[k].dense, q) == F.zero && Misses(F, N[k], known)
      ensures forall i :: i in M && i != k ==> Get(F, N[k].dense, i) == F.zero
    {
      BackKeyed(F, M, r, q, k, known);
    }
  }
}
