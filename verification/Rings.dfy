/** Fixed-capacity circular queues held in an array with a head and a count. */
module Rings {
  /** Index arithmetic of a circular buffer. */
  lemma Wrap(a: nat, n: nat)
    requires 0 < n && a < 2 * n
    ensures a % n == if a < n then a else a - n
  {
    var q, r := a / n, a % n;
    assert a == n * q + r;
    if q >= 2 { Scaled(n, 2, q); }
    if q < 0 { Scaled(n, q, -1); }
  }

  lemma Scaled(n: nat, a: int, b: int)
    requires a <= b
    ensures n * a <= n * b
  {
    assert n * (b - a) == n * b - n * a;
  }

  /** The index `n` places on. */
  function Advance(at: nat, n: nat, size: nat): (r: nat)
    requires at < size && n <= size
    ensures r < size && r == if at + n < size then at + n else at + n - size
  {
    Wrap(at + n, size);
    (at + n) % size
  }

  /** The queued items of a circular buffer, oldest first. */
  function Slots<T>(data: seq<T>, head: nat, count: nat): (s: seq<T>)
    requires head < |data| && count <= |data|
    ensures |s| == count
    ensures forall i :: 0 <= i < count ==> s[i] == data[if head + i < |data| then head + i else head + i - |data|]
  {
    if head + count <= |data| then data[head..head + count]
    else data[head..] + data[..head + count - |data|]
  }

  /** Taking `n` items off the front advances the head. */
  lemma SlotsSplit<T>(data: seq<T>, head: nat, count: nat, n: nat)
    requires head < |data| && n <= count <= |data|
    ensures var first := if |data| - head > n then n else |data| - head;
      var next := if head + n < |data| then head + n else head + n - |data|;
      Slots(data, head, count) == (data[head..head + first] + data[..n - first]) + Slots(data, next, count - n)
  {
    hide Slots;
    var first := if |data| - head > n then n else |data| - head;
    var next := if head + n < |data| then head + n else head + n - |data|;
    var all, rest := Slots(data, head, count), Slots(data, next, count - n);
    assert all[..n] == data[head..head + first] + data[..n - first];
    assert all[n..] == rest;
  }

  /** Putting items behind the queued ones, wrapping round at most once. */
  lemma SlotsExtend<T>(data: seq<T>, data': seq<T>, head: nat, count: nat, items: seq<T>)
    requires head < |data| == |data'| && count + |items| <= |data|
    requires forall k :: 0 <= k < count ==> data'[Place(|data|, head, k)] == data[Place(|data|, head, k)]
    requires forall k :: 0 <= k < |items| ==> data'[Place(|data|, head, count + k)] == items[k]
    ensures Slots(data', head, count + |items|) == Slots(data, head, count) + items
  {
    hide Slots;
    var all, was := Slots(data', head, count + |items|), Slots(data, head, count);
    forall k | 0 <= k < |all| ensures all[k] == (was + items)[k] {
      assert all[k] == data'[Place(|data|, head, k)];
      if k < count {
        assert was[k] == data[Place(|data|, head, k)];
      } else {
        assert data'[Place(|data|, head, count + (k - count))] == items[k - count];
      }
    }
  }

  /** Where the `k`-th item behind `head` lies. */
  function Place(size: nat, head: nat, k: nat): (at: nat)
    requires head < size && k < size
    ensures at < size
  {
    if head + k < size then head + k else head + k - size
  }

  class Ring<T(0)> {
    const data: array<T>
    var head: nat
    var count: nat

    ghost predicate Valid() reads this { head < data.Length && count <= data.Length }

    ghost function Contents(): seq<T>
      reads this, data
      requires Valid()
    {
      Slots(data[..], head, count)
    }

    constructor (capacity: nat)
      requires capacity > 0
      ensures Valid() && fresh(data) && data.Length == capacity && Contents() == []
    {
      data := new T[capacity];
      head, count := 0, 0;
    }

    method Push(x: T)
      requires Valid() && count < data.Length
      modifies `count, data
      ensures Valid() && Contents() == old(Contents()) + [x]
    {
      hide Advance;
      var tail := Advance(head, count, data.Length);
      data[tail] := x;
      count := count + 1;
      assert Contents()[..count - 1] == old(Contents());
    }

    method Pop() returns (x: T)
      requires Valid() && count > 0
      modifies `head, `count
      ensures Valid() && old(Contents()) == [x] + Contents()
    {
      hide Advance;
      x := data[head];
      head := Advance(head, 1, data.Length);
      count := count - 1;
    }

    /** ring_write: at most two block copies. */
    method Write(items: seq<T>)
      requires Valid() && count + |items| <= data.Length
      modifies `count, data
      ensures Valid() && Contents() == old(Contents()) + items
    {
      hide Slots, Advance;
      if items == [] {
        assert old(Contents()) + [] == old(Contents());
        return;
      }
      var tail := Advance(head, count, data.Length);
      var first := data.Length - tail;
      if first > |items| { first := |items|; }
      forall i | 0 <= i < first { data[tail + i] := items[i]; }
      forall i | 0 <= i < |items| - first { data[i] := items[first + i]; }
      SlotsExtend(old(data[..]), data[..], head, count, items);
      count := count + |items|;
    }

    /** ring_read: at most two block copies. */
    method Read(n: nat) returns (items: seq<T>)
      requires Valid() && n <= count
      modifies `head, `count
      ensures Valid() && old(Contents()) == items + Contents() && |items| == n
    {
      hide Slots, Advance;
      ghost var all := data[..];
      SlotsSplit(all, head, count, n);
      var first := data.Length - head;
      if first > n { first := n; }
      items := data[head..head + first] + data[..n - first];
      assert data[head..head + first] == all[head..head + first];
      assert data[..n - first] == all[..n - first];
      head, count := Advance(head, n, data.Length), count - n;
    }

    method Clear()
      requires Valid()
      modifies `head, `count
      ensures Valid() && Contents() == []
    {
      head, count := 0, 0;
    }
  }
}
