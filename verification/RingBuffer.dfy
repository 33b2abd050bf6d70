// CircularBuffer (container/process-monitor.ts): a ring of fixed capacity that
// keeps the newest elements pushed.
module RingBuffer {

  datatype Cell<T> = Undefined | Defined(value: T)

  // The newest `n` elements of `s`.
  function Newest<T>(s: seq<T>, n: nat): seq<T> {
    if |s| <= n then s else s[|s| - n..]
  }

  // Keeping only the newest `n` after every push keeps the newest `n` of all.
  lemma NewestStep<T>(s: seq<T>, x: T, n: nat)
    ensures Newest(Newest(s, n) + [x], n) == Newest(s + [x], n)
  {
  }

  // Position `i` places after `start` in a ring of `n` cells.
  function Slot(start: nat, i: nat, n: nat): int {
    if start + i < n then start + i else start + i - n
  }

  // Moving the start by one moves every place by one; the last one is the old start.
  lemma SlotNext(start: nat, n: nat)
    requires start < n
    ensures var next := Mod(start + 1, n); forall i :: 0 <= i < n ==>
      Slot(next, i, n) == if i == n - 1 then start else Slot(start, i + 1, n)
  {
    hide Mod;
  }

  class CircularBuffer<T> {
    const capacity: nat
    var buffer: array<Cell<T>>
    var head: nat
    var tail: nat
    var size: nat

    // With capacity zero the source's `head` and `tail` become NaN; the size
    // then stays 0 and nothing is ever read, so they are left at 0 here.
    ghost predicate Valid()
      reads this, buffer
    {
      && buffer.Length == capacity
      && size <= capacity
      && (capacity == 0 ==> head == 0 && tail == 0)
      && (capacity > 0 ==> head < capacity && tail == (if size == capacity then head else Slot(head, size, capacity)))
      && (forall i :: 0 <= i < size ==> buffer[Slot(head, i, capacity)].Defined?)
    }

    ghost function Contents(): (s: seq<T>)
      requires Valid()
      reads this, buffer
    {
      seq(size, i requires 0 <= i < size && Valid() reads this, buffer => buffer[Slot(head, i, capacity)].value)
    }

    constructor (capacity: nat)
      ensures Valid() && fresh(buffer) && this.capacity == capacity && Contents() == []
    {
      this.capacity := capacity;
      buffer := new Cell<T>[capacity](_ => Undefined);
      head, tail, size := 0, 0, 0;
    }

    method Push(item: T)
      requires Valid()
      modifies this`head, this`tail, this`size, buffer
      ensures Valid() && buffer == old(buffer)
      ensures Contents() == Newest(old(Contents()) + [item], capacity)
    {
      hide Mod;
      if capacity == 0 { return; }
      ghost var was, before := head, Contents();
      buffer[tail] := Defined(item);
      tail := Mod(tail + 1, capacity);
      if size < capacity {
        size := size + 1;
        assert Contents() == before + [item];
      } else {
        head := Mod(head + 1, capacity);
        SlotNext(was, capacity);
        assert Valid() && forall i :: 0 <= i < size - 1 ==> Contents()[i] == before[i + 1];
        assert Contents() == before[1..] + [item];
      }
    }

    method ToArray() returns (result: seq<T>)
      requires Valid()
      ensures result == Contents()
    {
      hide Mod;
      result := [];
      var i := 0;
      while i < size
        invariant 0 <= i <= size
        invariant result == Contents()[..i]
      {
        assert Mod(head + i, capacity) == Slot(head, i, capacity);
        result := result + [buffer[Mod(head + i, capacity)].value];
        i := i + 1;
      }
    }

    method Clear()
      requires Valid()
      modifies this
      ensures Valid() && fresh(buffer) && Contents() == []
    {
      head, tail, size := 0, 0, 0;
      buffer := new Cell<T>[capacity](_ => Undefined);
    }
  }

  lemma ModWrap(a: nat, n: nat)
    requires 0 < n && a < 2 * n
    ensures a % n == if a < n then a else a - n
  {
    var q, r := a / n, a % n;
    assert a == n * q + r && 0 <= r < n;
    if q >= 2 {
      assert n * q >= n * 2 by { MulGrows(n, q); }
    }
    assert q == 0 || q == 1;
  }

  lemma MulGrows(n: nat, q: int)
    requires q >= 2
    ensures n * q >= n * 2
  {
    assert n * q == n * 2 + n * (q - 2);
  }

  // (a % n) for an index that is at most one lap ahead.
  function Mod(a: nat, n: nat): (r: nat)
    requires 0 < n && a < 2 * n
    ensures r == if a < n then a else a - n
  {
    ModWrap(a, n);
    a % n
  }
}
