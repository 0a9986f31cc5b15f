// The encoding window: symbols in order of their ids, and a flag that they have no hole.

module Windows {
  import opened Fields
  import opened Elimination

  datatype Window<T> = Window(symbols: seq<Symbol<T>>, nextId: nat, contiguous: bool)

  predicate Adjacent<T>(symbols: seq<Symbol<T>>) {
    forall i :: 0 <= i < |symbols| - 1 ==> symbols[i + 1].id == symbols[i].id + 1
  }

  function Pushed<T>(w: Window<T>, data: seq<T>): Window<T> {
    var gap := w.symbols != [] && w.nextId != w.symbols[|w.symbols| - 1].id + 1;
    Window(w.symbols + [Symbol(w.nextId, data)], w.nextId + 1, w.contiguous && !gap)
  }

  function Evicted<T>(w: Window<T>): Window<T> {
    if w.symbols == [] then w else w.(symbols := w.symbols[1..])
  }

  function Retain<T(!new)>(symbols: seq<Symbol<T>>, gone: set<nat>): (r: seq<Symbol<T>>)
    ensures |r| <= |symbols|
    ensures forall s :: s in r <==> s in symbols && s.id !in gone
    ensures |r| == |symbols| ==> r == symbols
  {
    if symbols == [] then []
    else
      var init, last := symbols[..|symbols| - 1], symbols[|symbols| - 1];
      var kept := Retain(init, gone);
      assert forall s :: s in symbols <==> s in init || s == last;
      assert symbols == init + [last];
      if last.id in gone then kept else kept + [last]
  }

  // The flag is worked out anew only when something was removed.
  function Without<T(!new)>(w: Window<T>, ids: seq<nat>): Window<T> {
    var kept := Retain(w.symbols, (set id | id in ids));
    if ids != [] && |kept| < |w.symbols| then w.(symbols := kept, contiguous := Adjacent(kept)) else w
  }

  // By offset from the front if the flag is set, by search otherwise.
  function Lookup<T>(w: Window<T>, id: nat): Option<seq<T>> {
    if w.symbols == [] then None
    else if w.contiguous then
      var front := w.symbols[0].id;
      if front <= id < front + |w.symbols| then Some(w.symbols[id - front].data) else None
    else Scan(w.symbols, id)
  }

  // The data of the first symbol with the id.
  function Scan<T>(symbols: seq<Symbol<T>>, id: nat): (r: Option<seq<T>>)
    ensures r.Some? ==> Symbol(id, r.value) in symbols
    ensures r.None? <==> forall s :: s in symbols ==> s.id != id
  {
    if symbols == [] then None
    else if symbols[0].id == id then
      assert symbols[0] in symbols;
      Some(symbols[0].data)
    else
      assert symbols == [symbols[0]] + symbols[1..];
      Scan(symbols[1..], id)
  }

  // ---------------------------------------------------------------- the invariant

  ghost predicate Climbing<T>(symbols: seq<Symbol<T>>, bound: nat) {
    && (forall i, j :: 0 <= i < j < |symbols| ==> symbols[i].id < symbols[j].id)
    && (forall i :: 0 <= i < |symbols| ==> symbols[i].id < bound)
  }

  ghost predicate Orderly<T>(w: Window<T>) {
    Climbing(w.symbols, w.nextId) && (w.contiguous ==> Adjacent(w.symbols))
  }

  ghost predicate Contains<T>(w: Window<T>, id: nat) {
    exists s :: s in w.symbols && s.id == id
  }

  lemma {:induction false} RetainClimbs<T(!new)>(symbols: seq<Symbol<T>>, gone: set<nat>, bound: nat)
    requires Climbing(symbols, bound)
    ensures Climbing(Retain(symbols, gone), bound)
  {
    if symbols != [] {
      var init, last := symbols[..|symbols| - 1], symbols[|symbols| - 1];
      assert Climbing(init, last.id);
      RetainClimbs(init, gone, last.id);
    }
  }

  lemma OrderlyKept<T(!new)>(w: Window<T>, data: seq<T>, ids: seq<nat>)
    requires Orderly(w)
    ensures Orderly(Pushed(w, data)) && Orderly(Evicted(w)) && Orderly(Without(w, ids))
  {
    PushedOrderly(w, data);
    EvictedOrderly(w);
    RetainClimbs(w.symbols, (set id | id in ids), w.nextId);
  }

  lemma PushedOrderly<T>(w: Window<T>, data: seq<T>)
    requires Orderly(w)
    ensures Orderly(Pushed(w, data))
  {
  }

  lemma EvictedOrderly<T>(w: Window<T>)
    requires Orderly(w)
    ensures Orderly(Evicted(w))
  {
    if w.symbols != [] {
      assert forall i :: 0 <= i < |w.symbols| - 1 ==> w.symbols[1..][i] == w.symbols[i + 1];
    }
  }

  lemma {:induction false} AdjacentIds<T>(symbols: seq<Symbol<T>>, i: nat)
    requires Adjacent(symbols) && i < |symbols|
    ensures symbols[i].id == symbols[0].id + i
  {
    if i > 0 {
      AdjacentIds(symbols, i - 1);
      assert symbols[i - 1 + 1].id == symbols[i - 1].id + 1;
    }
  }

  lemma {:induction false} ScanFinds<T>(symbols: seq<Symbol<T>>, i: nat)
    requires i < |symbols| && forall j :: 0 <= j < i ==> symbols[j].id != symbols[i].id
    ensures Scan(symbols, symbols[i].id) == Some(symbols[i].data)
  {
    if i > 0 {
      assert symbols[0].id != symbols[i].id;
      ScanFinds(symbols[1..], i - 1);
    }
  }

  // The fast look-up is the search.
  lemma GetIsScan<T>(w: Window<T>, id: nat)
    requires Orderly(w)
    ensures Lookup(w, id) == Scan(w.symbols, id)
  {
    if w.symbols != [] && w.contiguous {
      if w.symbols[0].id <= id < w.symbols[0].id + |w.symbols| {
        ScanHits(w.symbols, w.nextId, id);
      } else {
        ScanMisses(w.symbols, id);
      }
    }
  }

  lemma ScanHits<T>(symbols: seq<Symbol<T>>, bound: nat, id: nat)
    requires Climbing(symbols, bound) && Adjacent(symbols)
    requires symbols != [] && symbols[0].id <= id < symbols[0].id + |symbols|
    ensures Scan(symbols, id) == Some(symbols[id - symbols[0].id].data)
  {
    AdjacentIds(symbols, id - symbols[0].id);
    ScanFinds(symbols, id - symbols[0].id);
  }

  lemma ScanMisses<T>(symbols: seq<Symbol<T>>, id: nat)
    requires Adjacent(symbols) && symbols != [] && !(symbols[0].id <= id < symbols[0].id + |symbols|)
    ensures Scan(symbols, id) == None
  {
    forall i | 0 <= i < |symbols| ensures symbols[i].id != id {
      AdjacentIds(symbols, i);
    }
  }

  // What the look-up answers, for a window in order.
  lemma GetIs<T>(w: Window<T>, i: nat)
    requires Orderly(w) && i < |w.symbols|
    ensures Lookup(w, w.symbols[i].id) == Some(w.symbols[i].data)
  {
    GetIsScan(w, w.symbols[i].id);
    ScanFinds(w.symbols, i);
  }

  // There is no hole, and the flag does not say so.
  ghost predicate Missed<T>(w: Window<T>) {
    Adjacent(w.symbols) && !w.contiguous
  }

  // The flag misses the end of a hole exactly by eviction: it then stays unset until a removal.
  lemma FlagMisses<T(!new)>(w: Window<T>, data: seq<T>, ids: seq<nat>)
    requires Orderly(w)
    ensures Missed(Evicted(w)) <==> !w.contiguous && Adjacent(Evicted(w).symbols)
    ensures Missed(Pushed(w, data)) <==>
      Missed(w) && (w.symbols == [] || w.nextId == w.symbols[|w.symbols| - 1].id + 1)
    ensures Missed(Without(w, ids)) <==> Missed(w) && Without(w, ids) == w
  {
    PushedAdjacent(w, data);
  }

  lemma PushedAdjacent<T>(w: Window<T>, data: seq<T>)
    ensures Adjacent(Pushed(w, data).symbols)
       <==> Adjacent(w.symbols) && (w.symbols == [] || w.nextId == w.symbols[|w.symbols| - 1].id + 1)
  {
    var r := Pushed(w, data).symbols;
    if Adjacent(r) {
      forall i | 0 <= i < |w.symbols| - 1 ensures w.symbols[i + 1].id == w.symbols[i].id + 1 {
        assert r[i + 1].id == r[i].id + 1;
      }
      if w.symbols != [] {
        assert r[|w.symbols| - 1 + 1].id == r[|w.symbols| - 1].id + 1;
      }
    }
  }

  // Which ids each operation takes in and out.
  lemma Membership<T(!new)>(w: Window<T>, data: seq<T>, ids: seq<nat>, id: nat)
    requires Orderly(w)
    ensures Contains(Pushed(w, data), id) <==> Contains(w, id) || id == w.nextId
    ensures Contains(Without(w, ids), id) <==> Contains(w, id) && id !in ids
    ensures Contains(Evicted(w), id) <==> Contains(w, id) && id != w.symbols[0].id
  {
    if w.symbols != [] {
      assert w.symbols == [w.symbols[0]] + w.symbols[1..];
      assert forall s :: s in w.symbols[1..] ==> s.id != w.symbols[0].id;
    }
    assert Contains(Pushed(w, data), w.nextId) by {
      assert Symbol(w.nextId, data) in Pushed(w, data).symbols;
    }
  }

  // ---------------------------------------------------------------- the window as an object

  class EncodingWindow<T(==,!new)> {
    const capacity: nat
    var symbols: seq<Symbol<T>>
    var nextId: nat
    var isContiguous: bool

    ghost function Value(): Window<T>
      reads this
    {
      Window(symbols, nextId, isContiguous)
    }

    constructor (capacity: nat)
      ensures this.capacity == capacity && Value() == Window([], 0, true) && Orderly(Value())
    {
      this.capacity := capacity;
      symbols, nextId, isContiguous := [], 0, true;
    }

    predicate IsFull()
      reads this
    {
      |symbols| >= capacity
    }

    method Push(data: seq<T>) returns (id: nat)
      requires Orderly(Value()) && !IsFull()
      modifies this
      ensures Value() == Pushed(old(Value()), data) && id == old(nextId)
      ensures Orderly(Value())
    {
      OrderlyKept(Value(), data, []);
      id := nextId;
      if symbols != [] && id != symbols[|symbols| - 1].id + 1 {
        isContiguous := false;
      }
      symbols := symbols + [Symbol(id, data)];
      nextId := nextId + 1;
    }

    method EvictOldest()
      requires Orderly(Value())
      modifies this
      ensures Value() == Evicted(old(Value())) && Orderly(Value())
    {
      OrderlyKept(Value(), [], []);
      if symbols != [] {
        symbols := symbols[1..];
      }
    }

    method RemoveIds(ids: seq<nat>)
      requires Orderly(Value())
      modifies this
      ensures Value() == Without(old(Value()), ids) && Orderly(Value())
    {
      ghost var was := Value();
      OrderlyKept(was, [], ids);
      if ids == [] {
        return;
      }
      var kept := Retain(symbols, (set id | id in ids));
      if |kept| < |symbols| {
        isContiguous := CheckContiguous(kept);
      }
      symbols := kept;
      assert Value() == Without(was, ids);
    }

    static method CheckContiguous(symbols: seq<Symbol<T>>) returns (all: bool)
      ensures all == Adjacent(symbols)
    {
      var i := 1;
      while i < |symbols|
        invariant 1 <= i
        invariant forall j :: 0 <= j < i - 1 && j < |symbols| - 1 ==> symbols[j + 1].id == symbols[j].id + 1
      {
        if symbols[i].id != symbols[i - 1].id + 1 {
          assert symbols[i - 1 + 1].id != symbols[i - 1].id + 1;
          return false;
        }
        i := i + 1;
      }
      all := true;
    }

    method Get(id: nat) returns (data: Option<seq<T>>)
      requires Orderly(Value())
      ensures data == Scan(symbols, id) == Lookup(Value(), id)
    {
      GetIsScan(Value(), id);
      if symbols == [] {
        return None;
      }
      if isContiguous {
        var front := symbols[0].id;
        if id < front {
          return None;
        }
        var idx := id - front;
        data := if idx < |symbols| then Some(symbols[idx].data) else None;
      } else {
        for i := 0 to |symbols|
          invariant Scan(symbols, id) == Scan(symbols[i..], id)
        {
          if symbols[i].id == id {
            return Some(symbols[i].data);
          }
        }
        data := None;
      }
    }
  }
}
