// Sizes of sets and of lists.

module Counting {
  import opened Keys

  lemma SubsetCard<V>(s: set<V>, t: set<V>)
    requires s <= t
    ensures |s| <= |t|
  {
    assert t == s + (t - s);
    assert |t| == |s| + |t - s|;
  }

  ghost function Elements(s: seq<nat>): set<nat> {
    set id | id in s
  }

  lemma ElementsLast(s: seq<nat>)
    requires s != []
    ensures Elements(s) == Elements(s[..|s| - 1]) + {s[|s| - 1]}
  {
    var init, last := s[..|s| - 1], s[|s| - 1];
    assert s == init + [last];
    assert forall id :: id in s <==> id in init || id == last;
  }

  lemma {:induction false} DistinctCard(s: seq<nat>)
    requires Distinct(s)
    ensures |Elements(s)| == |s|
  {
    if s != [] {
      var init, last := s[..|s| - 1], s[|s| - 1];
      assert forall i :: 0 <= i < |init| ==> init[i] == s[i] && init[..i] == s[..i];
      DistinctCard(init);
      ElementsLast(s);
      assert last !in init;
    }
  }

  lemma {:induction false} ListCard(s: seq<nat>)
    ensures |Elements(s)| <= |s|
  {
    if s != [] {
      ListCard(s[..|s| - 1]);
      ElementsLast(s);
    }
  }

  // A list without repetition is no longer than any list that has all of it.
  lemma DistinctFits(s: seq<nat>, t: seq<nat>)
    requires Distinct(s) && forall id :: id in s ==> id in t
    ensures |s| <= |t|
  {
    DistinctCard(s);
    ListCard(t);
    assert Elements(s) <= Elements(t);
    SubsetCard(Elements(s), Elements(t));
  }

  ghost function Span(lo: nat, hi: nat): (s: set<nat>)
    ensures forall j: nat :: j in s <==> lo <= j < hi
    ensures lo <= hi ==> |s| == hi - lo
    decreases hi
  {
    if lo >= hi then {} else Span(lo, hi - 1) + {hi - 1}
  }

  ghost function Below(s: set<nat>, id: nat): set<nat> {
    set j | j in s && j < id
  }

  // An element's place in the sorted list is the number of smaller ones.
  lemma SortedRank(s: set<nat>, i: nat)
    requires i < |Sorted(s)|
    ensures |Below(s, Sorted(s)[i])| == i
  {
    var ids := Sorted(s);
    SortedEnumerates(s);
    assert Distinct(ids[..i]);
    DistinctCard(ids[..i]);
    assert Below(s, ids[i]) == Elements(ids[..i]) by {
      forall j | j in Below(s, ids[i]) ensures j in ids[..i] {
        var k :| 0 <= k < |ids| && ids[k] == j;
      }
    }
  }

  // The first n elements are those with fewer than n smaller ones.
  lemma FirstOnes(s: set<nat>, n: nat, id: nat)
    requires n <= |Sorted(s)|
    ensures id in Sorted(s)[..n] <==> id in s && |Below(s, id)| < n
  {
    var ids := Sorted(s);
    SortedEnumerates(s);
    if id in s {
      var k :| 0 <= k < |ids| && ids[k] == id;
      SortedRank(s, k);
      FirstAt(ids, n, k);
    }
  }

  lemma FirstAt(ids: seq<nat>, n: nat, k: nat)
    requires Distinct(ids) && n <= |ids| && k < |ids|
    ensures ids[k] in ids[..n] <==> k < n
  {
    if k < n {
      assert ids[..n][k] == ids[k];
    }
  }

  lemma SortedSize(s: set<nat>)
    ensures |Sorted(s)| == |s|
  {
    SortedEnumerates(s);
    SortedDistinct(s);
    DistinctCard(Sorted(s));
    assert Elements(Sorted(s)) == s;
  }
}
