// The in-order buffer: symbols wait here until every id before them is settled.

module Delivery {
  import opened Fields
  import opened Elimination

  datatype Buffer<T> = Buffer(symbols: map<nat, seq<T>>, next: nat)

  // No buffered id has been passed.
  ghost predicate Ahead<T>(b: Buffer<T>) {
    forall id :: id in b.symbols ==> b.next <= id
  }

  // An id is settled once it is delivered, given up or waiting here.
  ghost predicate Settles<T>(b: Buffer<T>, id: nat) {
    id < b.next || id in b.symbols
  }

  function Insert<T>(b: Buffer<T>, id: nat, data: seq<T>): (r: Buffer<T>)
    ensures Ahead(b) ==> Ahead(r)
    ensures forall j :: Settles(r, j) <==> Settles(b, j) || j == id
    ensures r.next == b.next && (b.next <= id ==> id in r.symbols)
  {
    if id >= b.next && id !in b.symbols then Buffer(b.symbols[id := data], b.next) else b
  }

  datatype Drained<T> = Drained(buffer: Buffer<T>, out: seq<Symbol<T>>)

  // Take symbols from the front while there is no hole.
  function Drain<T>(b: Buffer<T>): (r: Drained<T>)
    ensures Ahead(b) ==> Ahead(r.buffer)
    ensures forall j :: Settles(r.buffer, j) <==> Settles(b, j)
    ensures r.buffer.next == b.next + |r.out|
    ensures r.buffer.next !in r.buffer.symbols
    ensures forall i :: 0 <= i < |r.out| ==>
      && r.out[i].id == b.next + i
      && r.out[i].id in b.symbols && r.out[i].data == b.symbols[r.out[i].id]
    ensures forall id :: id in r.buffer.symbols ==> id in b.symbols && r.buffer.symbols[id] == b.symbols[id]
    decreases |b.symbols|
  {
    if b.next in b.symbols then
      var rest := b.symbols - {b.next};
      assert rest.Keys == b.symbols.Keys - {b.next};
      assert |rest| == |rest.Keys| && |b.symbols| == |b.symbols.Keys|;
      var d := Drain(Buffer(rest, b.next + 1));
      Drained(d.buffer, [Symbol(b.next, b.symbols[b.next])] + d.out)
    else Drained(b, [])
  }

  function PruneBelow<T>(b: Buffer<T>, floor: nat): (r: Buffer<T>)
    ensures Ahead(b) ==> Ahead(r)
    ensures r.next == if b.next < floor then floor else b.next
    ensures forall id :: id in r.symbols <==> id in b.symbols && floor <= id
    ensures forall id :: id in r.symbols ==> r.symbols[id] == b.symbols[id]
    ensures forall j :: Settles(b, j) ==> Settles(r, j)
  {
    Buffer(map id | id in b.symbols && id >= floor :: b.symbols[id], if b.next < floor then floor else b.next)
  }
}
