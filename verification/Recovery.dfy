// What a call of add_known_source or add_coded does to a matrix in reduced form.

module Recovery {
  import opened Fields
  import opened Keys
  import opened Rows
  import opened Elimination
  import opened Echelon

  // ---------------------------------------------------------------- splitting off solved rows

  // The rows of M whose pivot is their only coefficient have moved to `recovered`.
  ghost predicate Split<T>(F: Field<T>, M: Matrix<T>, o: Outcome<T>) {
    && (forall k :: k in o.rows <==> k in M && !Only(F, M[k].dense, k))
    && (forall k :: k in o.rows ==> o.rows[k] == M[k])
    && (forall i :: 0 <= i < |o.recovered| ==>
          var s := o.recovered[i];
          s.id in M && Only(F, M[s.id].dense, s.id) && s.data == M[s.id].payload)
    && (forall k :: k in M && Only(F, M[k].dense, k) ==> k in Ids(o.recovered))
  }

  lemma SplitSettled<T(!new)>(F: Field<T>, M: Matrix<T>, o: Outcome<T>, known: set<nat>)
    requires IsField(F) && Reduced(F, M) && Clean(F, M, known) && Split(F, M, o)
    ensures Settled(F, o.rows, known + Ids(o.recovered))
  {
  }

  lemma SplitSolves<T(!new)>(F: Field<T>, M: Matrix<T>, o: Outcome<T>, n: nat, x: Assignment<T>, p: nat)
    requires IsField(F) && Reduced(F, M) && Split(F, M, o) && p < n
    requires Shaped(M, n) && Shaped(o.rows, n) && SymbolsShaped(o.recovered, n)
    ensures Solves(F, M, x, p) <==> Solves(F, o.rows, x, p) && Agrees(o.recovered, x, p)
  {
    forall k | k in M && Only(F, M[k].dense, k)
      ensures Residual(F, M[k], x, p) == F.zero <==> x(k) == M[k].payload[p]
    {
      DotOnly(F, M[k].dense, x, k, End(M[k].dense));
      SumZero(F, M[k].payload[p], x(k));
    }
    if Solves(F, o.rows, x, p) && Agrees(o.recovered, x, p) {
      forall k | k in M ensures Residual(F, M[k], x, p) == F.zero {
        if k !in o.rows {
          var i :| 0 <= i < |o.recovered| && o.recovered[i].id == k;
        }
      }
    }
  }

  // ---------------------------------------------------------------- turns that change nothing

  lemma {:induction false} NothingSolved<T(!new)>(F: Field<T>, M: Matrix<T>, keys: seq<nat>, id: nat)
    requires forall i :: 0 <= i < |keys| ==> keys[i] in M
    requires Absent(F, M, id)
    ensures NewlySolved(F, M, M, keys, id) == []
  {
    if keys != [] {
      NothingSolved(F, M, keys[..|keys| - 1], id);
    }
  }

  // No row mentions a queued symbol.
  ghost predicate Idle<T>(F: Field<T>, c: Cascade<T>) {
    forall i :: 0 <= i < |c.queue| ==> Absent(F, c.rows, c.queue[i].id)
  }

  lemma {:induction false} AddKnownIdle<T(!new)>(F: Field<T>, c: Cascade<T>, known: set<nat>, n: nat)
    requires CascadeShaped(c, n)
    requires Idle(F, c)
    ensures AddKnown(F, c, known, n) == Outcome(c.rows, c.recovered)
    decreases |c.queue|
  {
    if c.queue != [] {
      var id, data := c.queue[0].id, c.queue[0].data;
      assert SubstituteRows(F, c.rows, id, data) == c.rows;
      SortedIn(c.rows.Keys);
      NothingSolved(F, c.rows, Sorted(c.rows.Keys), id);
      AddKnownIdle(F, Turn(F, c, known, n), known + {id}, n);
    }
  }

  // ---------------------------------------------------------------- taking rows out

  // `o` is `c` without the rows keyed by `solved`, whose symbols are appended in that order.
  ghost predicate TakenOut<T>(rows: Matrix<T>, solved: seq<nat>, o: Matrix<T>) {
    && (forall k :: k in o <==> k in rows && k !in solved)
    && (forall k :: k in o ==> o[k] == rows[k])
  }

  ghost predicate Lists<T>(rows: Matrix<T>, solved: seq<nat>, recovered: seq<Symbol<T>>) {
    && |recovered| == |solved|
    && forall i :: 0 <= i < |solved| ==>
         solved[i] in rows && recovered[i] == Symbol(solved[i], rows[solved[i]].payload)
  }

  lemma {:induction false} ExtractRows<T(!new)>(c: Cascade<T>, solved: seq<nat>, known: set<nat>)
    ensures TakenOut(c.rows, solved, Extract(c, solved, known).rows)
  {
    if solved != [] {
      var init, id := solved[..|solved| - 1], solved[|solved| - 1];
      ExtractRows(c, init, known);
      assert forall k :: k in solved <==> k in init || k == id;
    }
  }

  lemma {:induction false} ExtractLists<T(!new)>(c: Cascade<T>, solved: seq<nat>, known: set<nat>)
    requires c.recovered == []
    requires Distinct(solved) && forall i :: 0 <= i < |solved| ==> solved[i] in c.rows
    ensures Lists(c.rows, solved, Extract(c, solved, known).recovered)
  {
    if solved != [] {
      var init, id := solved[..|solved| - 1], solved[|solved| - 1];
      ExtractLists(c, init, known);
      ExtractRows(c, init, known);
      assert id !in init;
    }
  }

  ghost predicate QueuedFrom<T>(queue: seq<Symbol<T>>, solved: seq<nat>) {
    forall i :: 0 <= i < |queue| ==> queue[i].id in solved
  }

  lemma {:induction false} ExtractQueue<T(!new)>(c: Cascade<T>, solved: seq<nat>, known: set<nat>)
    requires c.queue == []
    ensures QueuedFrom(Extract(c, solved, known).queue, solved)
  {
    if solved != [] {
      var init, id := solved[..|solved| - 1], solved[|solved| - 1];
      ExtractQueue(c, init, known);
      assert forall k :: k in solved <==> k in init || k == id;
    }
  }

  lemma TakenOutSplits<T(!new)>(F: Field<T>, M: Matrix<T>, solved: seq<nat>, o: Outcome<T>)
    requires forall k :: k in solved <==> k in M && Only(F, M[k].dense, k)
    requires TakenOut(M, solved, o.rows) && Lists(M, solved, o.recovered)
    ensures Split(F, M, o)
  {
    forall i | 0 <= i < |o.recovered|
      ensures var s := o.recovered[i]; s.id in M && Only(F, M[s.id].dense, s.id) && s.data == M[s.id].payload
    {
      assert solved[i] in solved;
    }
    forall k | k in M && Only(F, M[k].dense, k) ensures k in Ids(o.recovered) {
      assert k in solved;
      var i :| 0 <= i < |solved| && solved[i] == k;
      assert o.recovered[i].id == k;
    }
  }

  // ---------------------------------------------------------------- add_known_source

  // A row that becomes solved was changed, and it is solved at its own key.
  lemma SolvedAtKey<T(!new)>(F: Field<T>, r: Row<T>, id: nat, data: seq<T>, k: nat)
    requires F.one != F.zero && |r.payload| == |data|
    requires Leads(F, r, k) && !Only(F, r.dense, k) && id != k
    ensures var s := Substitute(F, r, id, data);
            SolvedHere(F, r, s, id) == if Only(F, s.dense, k) then [k] else []
  {
    var d := Substitute(F, r, id, data).dense;
    IsSolvedOnly(F, d, k);
    var s := IsSolved(F, d);
    if s.Some? {
      IsSolvedOnly(F, d, s.value);
      assert Get(F, d, k) == F.one;
    }
  }

  lemma {:induction false} NewlySolvedAre<T(!new)>(F: Field<T>, M: Matrix<T>, N: Matrix<T>, id: nat, keys: seq<nat>)
    requires Distinct(keys) && forall i :: 0 <= i < |keys| ==> keys[i] in M && keys[i] in N
    requires forall k :: k in M && k in N ==>
      SolvedHere(F, M[k], N[k], id) == if Only(F, N[k].dense, k) then [k] else []
    ensures var r := NewlySolved(F, M, N, keys, id);
            Distinct(r) && forall k :: k in r <==> k in keys && Only(F, N[k].dense, k)
  {
    if keys != [] {
      var init, k := keys[..|keys| - 1], keys[|keys| - 1];
      assert forall i :: 0 <= i < |init| ==> init[i] == keys[i] && init[..i] == keys[..i];
      NewlySolvedAre(F, M, N, id, init);
      assert k !in init;
      Append(NewlySolved(F, M, N, init, id), k);
    }
  }

  // The ids that NewlySolved finds are the keys of the rows left with nothing but their pivot.
  lemma NewlySolvedByKnown<T(!new)>(F: Field<T>, M: Matrix<T>, id: nat, data: seq<T>)
    requires F.one != F.zero && Shaped(M, |data|) && Reduced(F, M) && Unsolved(F, M) && id !in M
    ensures var N := SubstituteRows(F, M, id, data);
            var r := SolvedBy(F, M, id, data);
            Distinct(r) && forall k :: k in r <==> k in M && Only(F, N[k].dense, k)
  {
    var N := SubstituteRows(F, M, id, data);
    forall k | k in M && k in N
      ensures SolvedHere(F, M[k], N[k], id) == if Only(F, N[k].dense, k) then [k] else []
    {
      SolvedAtKey(F, M[k], id, data, k);
    }
    var keys := Sorted(M.Keys);
    SortedIn(M.Keys);
    SortedMembers(M.Keys);
    SortedDistinct(M.Keys);
    NewlySolvedAre(F, M, N, id, keys);
  }

  lemma SubstituteReduced<T(!new)>(F: Field<T>, M: Matrix<T>, id: nat, data: seq<T>)
    requires Shaped(M, |data|) && Reduced(F, M) && id !in M
    ensures Reduced(F, SubstituteRows(F, M, id, data))
  {
    var N := SubstituteRows(F, M, id, data);
    forall k | k in N ensures Leads(F, N[k], k) {
      assert Leads(F, M[k], k);
    }
  }

  lemma SubstituteClean<T(!new)>(F: Field<T>, M: Matrix<T>, id: nat, data: seq<T>, known: set<nat>)
    requires Shaped(M, |data|) && Clean(F, M, known)
    ensures Clean(F, SubstituteRows(F, M, id, data), known + {id})
  {
  }

  lemma SubstituteSolves<T(!new)>(F: Field<T>, M: Matrix<T>, id: nat, data: seq<T>, x: Assignment<T>, p: nat)
    requires IsField(F) && Shaped(M, |data|) && p < |data| && x(id) == data[p]
    ensures Solves(F, M, x, p) <==> Solves(F, SubstituteRows(F, M, id, data), x, p)
  {
    var N := SubstituteRows(F, M, id, data);
    forall k | k in M ensures Residual(F, N[k], x, p) == Residual(F, M[k], x, p) {
      ResidualSubstitute(F, M[k], id, data, x, p);
    }
  }

  lemma AfterExtract<T(!new)>(F: Field<T>, N: Matrix<T>, solved: seq<nat>, known: set<nat>, n: nat)
    requires Shaped(N, n) && Reduced(F, N)
    requires Distinct(solved) && forall k :: k in solved <==> k in N && Only(F, N[k].dense, k)
    ensures var t := Extract(Cascade(N, [], []), solved, known);
            && CascadeShaped(t, n)
            && Split(F, N, AddKnown(F, t, known, n))
  {
    var s := Cascade(N, [], []);
    var t := Extract(s, solved, known);
    assert CascadeShaped(s, n);
    QueueIsIdle(F, N, solved, known);
    AddKnownIdle(F, t, known, n);
    assert forall i :: 0 <= i < |solved| ==> solved[i] in solved;
    ExtractRows(s, solved, known);
    ExtractLists(s, solved, known);
    TakenOutSplits(F, N, solved, Outcome(t.rows, t.recovered));
  }

  // The symbols queued are pivots of rows that are gone: in reduced form no other row has them.
  lemma QueueIsIdle<T(!new)>(F: Field<T>, N: Matrix<T>, solved: seq<nat>, known: set<nat>)
    requires Reduced(F, N) && forall k :: k in solved ==> k in N
    ensures Idle(F, Extract(Cascade(N, [], []), solved, known))
  {
    var s := Cascade(N, [], []);
    var t := Extract(s, solved, known);
    ExtractRows(s, solved, known);
    ExtractQueue(s, solved, known);
    forall i | 0 <= i < |t.queue| ensures Absent(F, t.rows, t.queue[i].id) {
      assert t.queue[i].id in solved;
    }
  }

  // The first turn takes out the rows that the symbol solves; the turns after it find nothing.
  lemma AddKnownSplits<T(!new)>(F: Field<T>, M: Matrix<T>, id: nat, data: seq<T>, known: set<nat>)
    requires F.one != F.zero && Shaped(M, |data|) && Reduced(F, M) && Unsolved(F, M) && id !in M
    ensures Split(F, SubstituteRows(F, M, id, data), Learn(F, M, id, data, known))
  {
    var c := Cascade(M, [Symbol(id, data)], []);
    assert Substituted(F, c, |data|) == Cascade(SubstituteRows(F, M, id, data), [], []);
    SubstituteReduced(F, M, id, data);
    NewlySolvedByKnown(F, M, id, data);
    var N := SubstituteRows(F, M, id, data);
    AfterExtract(F, N, SolvedBy(F, M, id, data), known + {id}, |data|);
  }

  // ---------------------------------------------------------------- the loop over solved rows

  lemma {:induction false} SolvedKeysDistinct<T(!new)>(F: Field<T>, M: Matrix<T>, keys: seq<nat>)
    requires Distinct(keys) && forall i :: 0 <= i < |keys| ==> keys[i] in M
    ensures Distinct(SolvedKeys(F, M, keys))
  {
    if keys != [] {
      var init, k := keys[..|keys| - 1], keys[|keys| - 1];
      assert forall i :: 0 <= i < |init| ==> init[i] == keys[i] && init[..i] == keys[..i];
      SolvedKeysDistinct(F, M, init);
      Append(SolvedKeys(F, M, init), k);
    }
  }

  lemma Append(s: seq<nat>, k: nat)
    requires Distinct(s)
    ensures k !in s ==> Distinct(s + [k])
  {
    if k !in s {
      var r := s + [k];
      forall i | 0 <= i < |r| ensures r[i] !in r[..i] {
        assert r[..i] == s[..i];
      }
    }
  }

  // In reduced form the list names exactly the rows whose pivot is their only coefficient.
  lemma SolvedListIs<T(!new)>(F: Field<T>, M: Matrix<T>)
    requires F.one != F.zero && Reduced(F, M)
    ensures Distinct(SolvedList(F, M))
    ensures forall k :: k in SolvedList(F, M) <==> k in M && Only(F, M[k].dense, k)
  {
    SortedIn(M.Keys);
    SortedDistinct(M.Keys);
    SolvedKeysDistinct(F, M, Sorted(M.Keys));
    SortedMembers(M.Keys);
    forall k | k in M ensures k in SolvedList(F, M) <==> Only(F, M[k].dense, k) {
      SolvedIsPivot(F, M[k], k);
    }
  }

  lemma SolvedIsPivot<T(!new)>(F: Field<T>, r: Row<T>, k: nat)
    requires F.one != F.zero && Leads(F, r, k)
    ensures Only(F, r.dense, k) <==> IsSolved(F, r.dense).Some?
    ensures Only(F, r.dense, k) ==> IsSolved(F, r.dense) == Some(k)
  {
    IsSolvedOnly(F, r.dense, k);
    var s := IsSolved(F, r.dense);
    if s.Some? {
      IsSolvedOnly(F, r.dense, s.value);
      assert Get(F, r.dense, k) == F.one;
    }
  }

  // In reduced form the symbol of a solved row occurs in no other row.
  lemma SolveOneTakesOut<T(!new)>(F: Field<T>, o: Outcome<T>, pid: nat, known: set<nat>, n: nat)
    requires F.one != F.zero && Shaped(o.rows, n) && SymbolsShaped(o.recovered, n) && Reduced(F, o.rows)
    requires pid in o.rows && Only(F, o.rows[pid].dense, pid)
    ensures SolveOne(F, o, pid, known, n)
         == Outcome(o.rows - {pid}, o.recovered + [Symbol(pid, o.rows[pid].payload)])
  {
    SolvedIsPivot(F, o.rows[pid], pid);
    var rest := o.rows - {pid};
    var c := Cascade(rest, [Symbol(pid, o.rows[pid].payload)], []);
    assert Absent(F, rest, pid);
    AddKnownIdle(F, c, known + Ids(o.recovered) + {pid}, n);
  }

  lemma SubReduced<T(!new)>(F: Field<T>, M: Matrix<T>, N: Matrix<T>)
    requires Reduced(F, M) && forall k :: k in N ==> k in M && N[k] == M[k]
    ensures Reduced(F, N)
  {
  }

  lemma TakeOneMore<T(!new)>(M: Matrix<T>, solved: seq<nat>, b: Outcome<T>)
    requires solved != [] && Distinct(solved) && forall i :: 0 <= i < |solved| ==> solved[i] in M
    requires TakenOut(M, solved[..|solved| - 1], b.rows) && Lists(M, solved[..|solved| - 1], b.recovered)
    ensures var k := solved[|solved| - 1];
            && TakenOut(M, solved, b.rows - {k})
            && Lists(M, solved, b.recovered + [Symbol(k, M[k].payload)])
  {
    var init, k := solved[..|solved| - 1], solved[|solved| - 1];
    assert forall j :: j in solved <==> j in init || j == k;
  }

  lemma {:induction false} SolvePassTakesOut<T(!new)>(
    F: Field<T>, M: Matrix<T>, solved: seq<nat>, known: set<nat>, n: nat)
    requires F.one != F.zero && Shaped(M, n) && Reduced(F, M) && Distinct(solved)
    requires forall i :: 0 <= i < |solved| ==> solved[i] in M && Only(F, M[solved[i]].dense, solved[i])
    ensures var o := SolvePass(F, Outcome(M, []), solved, known, n);
            TakenOut(M, solved, o.rows) && Lists(M, solved, o.recovered)
  {
    if solved != [] {
      var init, k := solved[..|solved| - 1], solved[|solved| - 1];
      SolvePassTakesOut(F, M, init, known, n);
      var b := SolvePass(F, Outcome(M, []), init, known, n);
      assert k !in init;
      assert k in b.rows && b.rows[k] == M[k];
      SubReduced(F, M, b.rows);
      SolveOneTakesOut(F, b, k, known, n);
      TakeOneMore(M, solved, b);
    }
  }

  lemma SolveSplits<T(!new)>(F: Field<T>, M: Matrix<T>, known: set<nat>, n: nat)
    requires F.one != F.zero && Shaped(M, n) && Reduced(F, M)
    ensures Split(F, M, Solve(F, Outcome(M, []), known, n))
  {
    var solved := SolvedList(F, M);
    SolvedListIs(F, M);
    assert forall i :: 0 <= i < |solved| ==> solved[i] in solved;
    SolvePassTakesOut(F, M, solved, known, n);
    var o := SolvePass(F, Outcome(M, []), solved, known, n);
    TakenOutSplits(F, M, solved, o);
    SolveStops(F, o, known, n);
  }

  lemma SolveStops<T(!new)>(F: Field<T>, o: Outcome<T>, known: set<nat>, n: nat)
    requires F.one != F.zero && Shaped(o.rows, n) && SymbolsShaped(o.recovered, n)
    requires Reduced(F, o.rows) && Unsolved(F, o.rows)
    ensures Solve(F, o, known, n) == o
  {
    assert |SolvedList(F, o.rows)| > 0 ==> SolvedList(F, o.rows)[0] in SolvedList(F, o.rows);
    SolvedListIs(F, o.rows);
  }
}
