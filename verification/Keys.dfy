// Ordered traversal of a set of ids, as the source's BTreeMap gives it.

module Keys {

  ghost predicate Ascending(s: seq<nat>) {
    forall i, j :: 0 <= i < j < |s| ==> s[i] < s[j]
  }

  lemma MinExists(s: set<nat>)
    requires s != {}
    ensures exists m: nat :: m in s && forall k | k in s :: m <= k
  {
    var x :| x in s;
    if s == {x} {
      assert x in s && forall k | k in s :: x <= k;
    } else {
      MinExists(s - {x});
      var y: nat :| y in s - {x} && forall k | k in s - {x} :: y <= k;
      var m := if x < y then x else y;
      forall k | k in s ensures m <= k {
        assert k == x || k in s - {x};
      }
    }
  }

  function Min(s: set<nat>): (m: nat)
    requires s != {}
    ensures m in s && forall k | k in s :: m <= k
  {
    MinExists(s);
    var m: nat :| m in s && forall k | k in s :: m <= k;
    m
  }

  // What is known of the order is left to the lemmas: it is rarely wanted.
  function Sorted(s: set<nat>): seq<nat> {
    if s == {} then []
    else
      var m := Min(s);
      [m] + Sorted(s - {m})
  }

  // r lists the elements of s in order.
  ghost predicate Enumerates(r: seq<nat>, s: set<nat>) {
    && Ascending(r)
    && (forall i :: 0 <= i < |r| ==> r[i] in s)
    && (forall k :: k in s <==> k in r)
  }

  lemma {:induction false} SortedEnumerates(s: set<nat>)
    ensures Enumerates(Sorted(s), s)
  {
    if s != {} {
      var m := Min(s);
      SortedEnumerates(s - {m});
      assert forall k :: k in Sorted(s) <==> k == m || k in Sorted(s - {m});
    }
  }

  lemma SortedIn(s: set<nat>)
    ensures forall i :: 0 <= i < |Sorted(s)| ==> Sorted(s)[i] in s
  {
    SortedEnumerates(s);
  }

  ghost predicate Distinct(s: seq<nat>) {
    forall i :: 0 <= i < |s| ==> s[i] !in s[..i]
  }

  lemma SortedDistinct(s: set<nat>)
    ensures Distinct(Sorted(s))
  {
    SortedEnumerates(s);
  }

  lemma SortedMembers(s: set<nat>)
    ensures forall k :: k in Sorted(s) <==> k in s
  {
    SortedEnumerates(s);
  }

  // The map after a traversal has replaced the values at `keys` by those of n.
  ghost function Overlay<V>(m: map<nat, V>, n: map<nat, V>, keys: seq<nat>): map<nat, V>
    requires forall i :: 0 <= i < |keys| ==> keys[i] in n
  {
    if keys == [] then m
    else
      var k := keys[|keys| - 1];
      Overlay(m, n, keys[..|keys| - 1])[k := n[k]]
  }

  lemma {:induction false} OverlayAt<V>(m: map<nat, V>, n: map<nat, V>, keys: seq<nat>, k: nat)
    requires forall i :: 0 <= i < |keys| ==> keys[i] in n
    ensures k in Overlay(m, n, keys) <==> k in m || k in keys
    ensures k in n && k in keys ==> Overlay(m, n, keys)[k] == n[k]
    ensures k in m && k !in keys ==> Overlay(m, n, keys)[k] == m[k]
  {
    if keys != [] {
      OverlayAt(m, n, keys[..|keys| - 1], k);
    }
  }

  // When the traversal reaches a key, the value there is still the one of m.
  lemma OverlayStep<V>(m: map<nat, V>, n: map<nat, V>, keys: seq<nat>, i: nat)
    requires keys == Sorted(m.Keys) && m.Keys == n.Keys && i < |keys|
    ensures forall j :: 0 <= j < |keys| ==> keys[j] in n
    ensures keys[i] in Overlay(m, n, keys[..i]) && Overlay(m, n, keys[..i])[keys[i]] == m[keys[i]]
    ensures Overlay(m, n, keys[..i + 1]) == Overlay(m, n, keys[..i])[keys[i] := n[keys[i]]]
  {
    SortedIn(m.Keys);
    SortedDistinct(m.Keys);
    assert keys[..i + 1][..i] == keys[..i];
    OverlayAt(m, n, keys[..i], keys[i]);
  }

  lemma OverlayEnds<V>(m: map<nat, V>, n: map<nat, V>, keys: seq<nat>)
    requires keys == Sorted(m.Keys) && m.Keys == n.Keys
    ensures forall j :: 0 <= j < |keys| ==> keys[j] in n
    ensures Overlay(m, n, keys[..|keys|]) == n
  {
    SortedIn(m.Keys);
    SortedMembers(m.Keys);
    assert keys[..|keys|] == keys;
    forall k: nat ensures k in Overlay(m, n, keys) <==> k in n
                  ensures k in n ==> Overlay(m, n, keys)[k] == n[k] {
      OverlayAt(m, n, keys, k);
    }
  }
}
