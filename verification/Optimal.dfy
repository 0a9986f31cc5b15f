// An unknown symbol is not determined: reduced form without solved rows leaves it free.

module Optimal {
  import opened Fields
  import opened Rows
  import opened Elimination
  import opened Echelon

  // The direction in which column w is free: the pivots follow it, everything else stays.
  ghost function Direction<T>(F: Field<T>, M: Matrix<T>, w: nat): Assignment<T> {
    (i: nat) => if i == w then F.one else if i in M then Get(F, M[i].dense, w) else F.zero
  }

  ghost function Moved<T>(F: Field<T>, M: Matrix<T>, w: nat, x: Assignment<T>): Assignment<T> {
    (i: nat) => F.add(x(i), Direction(F, M, w)(i))
  }

  lemma DirectionInKernel<T(!new)>(F: Field<T>, M: Matrix<T>, w: nat, k: nat)
    requires IsField(F) && Reduced(F, M) && w !in M && k in M
    ensures Dot(F, M[k].dense, Direction(F, M, w), End(M[k].dense)) == F.zero
  {
    var d, v := M[k].dense, Direction(F, M, w);
    var e := Remove(F, d, w);
    var hi := End(d) + w + k + 1;
    DotBeyond(F, d, v, hi);
    DotRemove(F, d, e, w, v, hi);
    DotOnly(F, e, v, k, hi);
  }

  lemma MovedSolves<T(!new)>(F: Field<T>, M: Matrix<T>, n: nat, w: nat, x: Assignment<T>, p: nat)
    requires IsField(F) && Shaped(M, n) && Reduced(F, M) && w !in M && p < n && Solves(F, M, x, p)
    ensures Solves(F, M, Moved(F, M, w, x), p)
  {
    forall k | k in M ensures Residual(F, M[k], Moved(F, M, w, x), p) == F.zero {
      var d := M[k].dense;
      DirectionInKernel(F, M, w, k);
      DotAdd(F, d, x, Direction(F, M, w), Moved(F, M, w, x), End(d));
    }
  }

  lemma KnownNotKey<T(!new)>(F: Field<T>, M: Matrix<T>, known: set<nat>, id: nat)
    requires F.one != F.zero && Reduced(F, M) && Clean(F, M, known) && id in known
    ensures id !in M
  {
    assert id in M ==> Leads(F, M[id], id);
    assert Absent(F, M, id);
  }

  // Another solution agrees on everything known and differs at u.
  lemma UnknownIsFree<T(!new)>(
    F: Field<T>, M: Matrix<T>, n: nat, known: set<nat>, u: nat, x: Assignment<T>, p: nat) returns (y: Assignment<T>)
    requires IsField(F) && Shaped(M, n) && Settled(F, M, known) && u !in known
    requires p < n && Solves(F, M, x, p)
    ensures Solves(F, M, y, p)
    ensures forall id :: id in known ==> y(id) == x(id)
    ensures y(u) != x(u)
  {
    var w := u;
    if u in M {
      w :| w != u && Get(F, M[u].dense, w) != F.zero;
    }
    y := Moved(F, M, w, x);
    MovedSolves(F, M, n, w, x, p);
    var v := Direction(F, M, w);
    assert v(u) != F.zero;
    Laws(F, x(u), x(u), v(u));
    forall id | id in known ensures y(id) == x(id) {
      KnownNotKey(F, M, known, id);
    }
  }
}
