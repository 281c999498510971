/** The ring buffer of src/container/ringbuffer.h, its iterators, and the sliding windows of small_test/window.cc on top of it. */
module RingBuffer {
  import opened Bits

  // ---------- Positions ----------

  /** The slot `i` places after `head` in a ring of `c` slots. */
  function Slot(head: int, i: int, c: int): int { if head + i < c then head + i else head + i - c }

  lemma RemainderIsSlot(head: int, i: int, c: int)
    requires 0 <= head + i < 2 * c
    ensures (head + i) % c == Slot(head, i, c) && 0 <= Slot(head, i, c) < c
  {
    if head + i < c { DivModUnique(head + i, c, 0, head + i); } else { DivModUnique(head + i, c, 1, head + i - c); }
  }

  /** What a ring holds: `size` slots from `head` on. */
  function Held<T>(slots: seq<T>, head: nat, size: nat): seq<T>
    requires size <= |slots| && (size > 0 ==> head < |slots|)
  {
    seq(size, i requires 0 <= i < size => slots[Slot(head, i, |slots|)])
  }

  /** The last `n` elements, or all of them. */
  function LastN<T>(s: seq<T>, n: nat): seq<T> { if |s| <= n then s else s[|s| - n..] }

  /** One more element for a sequence that holds at most `n`. */
  function Shifted<T>(s: seq<T>, n: nat, x: T): seq<T>
    requires n > 0
  {
    if |s| == n then s[1..] + [x] else s + [x]
  }

  /** Adding elements one by one keeps the last `n` of everything that has been added. */
  lemma ShiftedIsLastN<T>(all: seq<T>, n: nat, x: T)
    requires n > 0
    ensures Shifted(LastN(all, n), n, x) == LastN(all + [x], n)
  {
  }

  function Reversed<T>(s: seq<T>): seq<T> { seq(|s|, i requires 0 <= i < |s| => s[|s| - 1 - i]) }

  /** An iterator: a slot, and how often it has been advanced. Two iterators are equal when the latter are. */
  datatype Iterator = Iterator(index: int, plusCount: nat)

  class Ring<T> {
    const overwrite: bool
    var elements: array<T>
    var tail: int
    var head: int
    var size: nat

    ghost predicate Valid()
      reads this
    {
      && size <= elements.Length && 0 <= head && -1 <= tail && (tail == -1 ==> size == 0)
      && (elements.Length > 0 ==> head < elements.Length && tail < elements.Length)
      && (elements.Length > 0 ==> Slot(tail, 1, elements.Length) == Slot(head, size, elements.Length))
    }

    ghost function Contents(): seq<T>
      requires Valid()
      reads this, elements
    {
      Held(elements[..], head, size)
    }

    /** `init` stands for whatever the memory contains. */
    constructor (capacity: nat, overwrite: bool, init: nat -> T)
      ensures Valid() && Contents() == [] && elements.Length == capacity && fresh(elements) && this.overwrite == overwrite
    {
      this.overwrite := overwrite;
      elements := new T[capacity](init);
      tail, head, size := -1, 0, 0;
    }

    method PopFront()
      requires Valid()
      modifies this`head, this`size
      ensures Valid() && Contents() == if old(size) == 0 then [] else old(Contents())[1..]
    {
      if size == 0 { return; }
      RemainderIsSlot(head, 1, elements.Length);
      size := size - 1;
      head := (head + 1) % elements.Length;
    }

    /** `ok` is false when the program divides by zero: an overwriting buffer with no slots has room made in it, and then looks for
        the next slot. */
    method EmplaceBack(x: T) returns (ok: bool)
      requires Valid()
      modifies this`tail, this`head, this`size, elements
      ensures Valid()
      ensures !ok <==> elements.Length == 0 && overwrite
      ensures Contents() == if !ok || (old(size) == elements.Length && !overwrite) then old(Contents())
        else Shifted(old(Contents()), elements.Length, x)
    {
      ok := true;
      if size == elements.Length {
        if overwrite { PopFront(); } else { return; }
      }
      if elements.Length == 0 { return false; }
      RemainderIsSlot(tail, 1, elements.Length);
      tail := (tail + 1) % elements.Length;
      elements[tail] := x;
      size := size + 1;
      assert Slot(tail, 1, elements.Length) == Slot(head, size, elements.Length);
    }

    /** The slot of number `i` of the contents. */
    method At(i: nat) returns (x: T)
      requires Valid() && i < size
      ensures x == Contents()[i]
    {
      RemainderIsSlot(head, i, elements.Length);
      x := elements[(i + head) % elements.Length];
    }

    method Front() returns (x: T)
      requires Valid() && size > 0
      ensures x == Contents()[0]
    {
      x := elements[head];
    }

    method Back() returns (x: T)
      requires Valid() && size > 0
      ensures x == Contents()[size - 1]
    {
      x := elements[tail];
    }

    /** clear, for objects without a destructor. */
    method ClearTrivial()
      requires Valid()
      modifies this`tail, this`head, this`size
      ensures Valid() && Contents() == []
    {
      head, tail, size := 0, -1, 0;
    }

    /** clear, for objects with one: they are destroyed one by one. */
    method ClearEach()
      requires Valid()
      modifies this`head, this`size
      ensures Valid() && Contents() == []
    {
      while size > 0
        invariant Valid()
        decreases size
      {
        RemainderIsSlot(head, 1, elements.Length);
        head := (head + 1) % elements.Length;
        size := size - 1;
      }
    }

    function Advance(it: Iterator, reverse: bool): Iterator
      requires elements.Length > 0
      reads this
    {
      var c := elements.Length;
      Iterator(if reverse then (it.index + c - 1) % c else (it.index + 1) % c, it.plusCount + 1)
    }

    /** What a loop from begin() to end() sees. */
    method Forward() returns (seen: seq<T>)
      requires Valid()
      ensures seen == Contents()
    {
      seen := [];
      var it := Iterator(head, 0);
      while it.plusCount != size
        invariant it.plusCount <= size && seen == Contents()[..it.plusCount]
        invariant it.plusCount < size ==> it.index == Slot(head, it.plusCount, elements.Length)
        decreases size - it.plusCount
      {
        assert 0 <= it.index < elements.Length;
        seen := seen + [elements[it.index]];
        RemainderIsSlot(it.index, 1, elements.Length);
        it := Advance(it, false);
      }
    }

    /** What a loop from rbegin() to rend() sees. */
    method Backward() returns (seen: seq<T>)
      requires Valid()
      ensures seen == Reversed(Contents())
    {
      seen := [];
      var it := Iterator(tail, 0);
      while it.plusCount != size
        invariant it.plusCount <= size && seen == Reversed(Contents())[..it.plusCount]
        invariant it.plusCount < size ==> it.index == Slot(head, size - 1 - it.plusCount, elements.Length)
        decreases size - it.plusCount
      {
        assert 0 <= it.index < elements.Length;
        seen := seen + [elements[it.index]];
        RemainderIsSlot(it.index, elements.Length - 1, elements.Length);
        it := Advance(it, true);
      }
    }
  }

  // ---------- Windows ----------

  datatype Item<T> = Item(timestamp: int, value: T)

  ghost predicate Nondecreasing<T>(s: seq<Item<T>>) { forall i, j | 0 <= i < j < |s| :: s[i].timestamp <= s[j].timestamp }

  /** The suffix from `k` on fits the capacity, and all of it lies within the gap of the newest item. */
  ghost predicate FitsFrom<T>(s: seq<Item<T>>, capacity: nat, gap: nat, k: nat) {
    && k <= |s| && |s| - k <= capacity
    && forall i | k <= i < |s| :: s[|s| - 1].timestamp - s[i].timestamp <= gap
  }

  /** `w` is the longest suffix of `s` that fits. */
  ghost predicate IsLongestFitting<T>(s: seq<Item<T>>, capacity: nat, gap: nat, w: seq<Item<T>>) {
    && |w| <= |s| && w == s[|s| - |w|..]
    && FitsFrom(s, capacity, gap, |s| - |w|)
    && forall k | 0 <= k < |s| - |w| :: !FitsFrom(s, capacity, gap, k)
  }

  /** Dropping items from the front of `w` while they are too old for time `now`. */
  function Unexpired<T>(w: seq<Item<T>>, now: int, gap: nat): seq<Item<T>> {
    if w != [] && now - w[0].timestamp > gap then Unexpired(w[1..], now, gap) else w
  }

  lemma {:induction false} UnexpiredIs<T>(w: seq<Item<T>>, now: int, gap: nat)
    ensures var u := Unexpired(w, now, gap);
      && |u| <= |w| && u == w[|w| - |u|..]
      && (u != [] ==> now - u[0].timestamp <= gap)
      && (forall i | 0 <= i < |w| - |u| :: now - w[i].timestamp > gap)
  {
    if w != [] && now - w[0].timestamp > gap {
      UnexpiredIs(w[1..], now, gap);
      var u := Unexpired(w, now, gap);
      assert w[1..][|w| - 1 - |u|..] == w[|w| - |u|..];
      forall i | 0 <= i < |w| - |u| ensures now - w[i].timestamp > gap {
        if i > 0 { assert w[1..][i - 1] == w[i]; }
      }
    }
  }

  /** With timestamps in order, one more item and the removal of what has expired yield the longest fitting suffix again. */
  lemma WindowMovesOn<T>(s: seq<Item<T>>, capacity: nat, gap: nat, w: seq<Item<T>>, x: Item<T>)
    requires capacity > 0 && Nondecreasing(s + [x]) && IsLongestFitting(s, capacity, gap, w)
    ensures IsLongestFitting(s + [x], capacity, gap, Unexpired(Shifted(w, capacity, x), x.timestamp, gap))
  {
    var t, v := s + [x], Shifted(w, capacity, x);
    var u := Unexpired(v, x.timestamp, gap);
    UnexpiredIs(v, x.timestamp, gap);
    assert v == t[|t| - |v|..];
    assert u == t[|t| - |u|..];
    assert |u| > 0 by { assert v[|v| - 1] == x; }
    forall i | |t| - |u| <= i < |t| ensures x.timestamp - t[i].timestamp <= gap { assert t[|t| - |u|].timestamp <= t[i].timestamp; }
    forall k | 0 <= k < |t| - |u| ensures !FitsFrom(t, capacity, gap, k) {
      if k >= |t| - |v| {
        assert v[k - (|t| - |v|)] == t[k];
      } else if |v| < capacity {
        NothingOlderFits(s, capacity, gap, w, x, k);
      }
    }
  }

  /** What was too old or too much before is so after one more item. */
  lemma NothingOlderFits<T>(s: seq<Item<T>>, capacity: nat, gap: nat, w: seq<Item<T>>, x: Item<T>, k: nat)
    requires Nondecreasing(s + [x]) && IsLongestFitting(s, capacity, gap, w) && k < |s| - |w|
    ensures !FitsFrom(s + [x], capacity, gap, k)
  {
    var t := s + [x];
    assert !FitsFrom(s, capacity, gap, k);
    if |s| - k <= capacity {
      var i :| k <= i < |s| && s[|s| - 1].timestamp - s[i].timestamp > gap;
      assert t[i] == s[i] && t[|s| - 1] == s[|s| - 1];
      assert t[|s| - 1].timestamp <= t[|t| - 1].timestamp;
    }
  }

  class TimeWindow<T> {
    const buffer: Ring<Item<T>>
    const gap: nat
    var endTimestamp: int
    ghost var input: seq<Item<T>>   // everything that has been added

    ghost predicate Valid()
      reads this, buffer, buffer.elements
    {
      && buffer.Valid() && buffer.overwrite
      && |buffer.Contents()| <= |input|
      && (Nondecreasing(input) ==> IsLongestFitting(input, buffer.elements.Length, gap, buffer.Contents()))
    }

    constructor (gap: nat, capacity: nat, init: nat -> Item<T>)
      ensures Valid() && input == [] && fresh(buffer) && fresh(buffer.elements) && buffer.elements.Length == capacity && this.gap == gap
    {
      this.gap, endTimestamp, input := gap, 0, [];
      buffer := new Ring(capacity, true, init);
    }

    /** The window is what it was, one item on, without what the new time has made too old. With timestamps in order it is the
        longest suffix of everything added that fits the capacity and lies within the gap of the newest item. It fails exactly
        if no item fits. */
    method EmplaceBack(timestamp: int, value: T) returns (ok: bool)
      requires Valid()
      modifies this, buffer, buffer.elements
      ensures Valid() && buffer.elements == old(buffer.elements)
      ensures ok <==> buffer.elements.Length > 0
      ensures input == if ok then old(input) + [Item(timestamp, value)] else old(input)
      ensures buffer.Contents() == if !ok then old(buffer.Contents()) else
        Unexpired(Shifted(old(buffer.Contents()), buffer.elements.Length, Item(timestamp, value)), timestamp, gap)
    {
      ghost var x := Item(timestamp, value);
      ghost var capacity := buffer.elements.Length;
      ok := buffer.EmplaceBack(Item(timestamp, value));
      if !ok { return; }
      endTimestamp := timestamp;
      ghost var v := buffer.Contents();
      RemoveExpiredData();
      input := input + [x];
      UnexpiredIs(v, timestamp, gap);
      if Nondecreasing(input) {
        assert forall i | 0 <= i < |old(input)| :: old(input)[i] == input[i];
        WindowMovesOn(old(input), capacity, gap, old(buffer.Contents()), x);
      }
    }

    method RemoveExpiredData()
      requires buffer.Valid()
      modifies buffer`head, buffer`size
      ensures buffer.Valid() && buffer.Contents() == Unexpired(old(buffer.Contents()), endTimestamp, gap)
    {
      while buffer.size > 0
        invariant buffer.Valid()
        invariant Unexpired(buffer.Contents(), endTimestamp, gap) == Unexpired(old(buffer.Contents()), endTimestamp, gap)
        decreases buffer.size
      {
        var front := buffer.Front();
        if endTimestamp - front.timestamp > gap { buffer.PopFront(); } else { break; }
      }
    }
  }

  class FixedWindow<T> {
    var buffer: Ring<T>
    var windowSize: nat

    ghost predicate Valid()
      reads this, buffer, buffer.elements
    {
      buffer.Valid() && buffer.overwrite && windowSize == buffer.elements.Length
    }

    constructor (windowSize: nat, init: nat -> T)
      ensures Valid() && buffer.Contents() == [] && this.windowSize == windowSize && fresh(buffer) && fresh(buffer.elements)
    {
      this.windowSize := windowSize;
      buffer := new Ring(windowSize, true, init);
    }

    method EmplaceBack(x: T) returns (ok: bool)
      requires Valid()
      modifies buffer, buffer.elements
      ensures Valid() && (ok <==> windowSize > 0)
      ensures buffer.Contents() == if ok then Shifted(old(buffer.Contents()), windowSize, x) else old(buffer.Contents())
    {
      ok := buffer.EmplaceBack(x);
    }

    /** A new buffer with the last items of the old one. It fails exactly if no item fits the new size and there are items. */
    method Resize(newSize: nat, init: nat -> T) returns (ok: bool)
      requires Valid()
      modifies this
      ensures Valid() && (!ok <==> newSize == 0 && old(buffer).size > 0)
      ensures ok ==> windowSize == newSize && fresh(buffer) && fresh(buffer.elements)
      ensures ok ==> buffer.Contents() == LastN(old(buffer.Contents()), newSize)
      ensures !ok ==> windowSize == old(windowSize) && buffer == old(buffer)
    {
      var newBuffer := new Ring(newSize, true, init);
      var items := buffer.Forward();
      ok := AddAll(newBuffer, items);
      if !ok { return; }
      buffer := newBuffer;
      windowSize := newSize;
    }
  }

  lemma OneMoreItem<T>(items: seq<T>, i: nat, n: nat)
    requires i < |items| && n > 0
    ensures Shifted(LastN(items[..i], n), n, items[i]) == LastN(items[..i + 1], n)
  {
    ShiftedIsLastN(items[..i], n, items[i]);
    assert items[..i + 1] == items[..i] + [items[i]];
  }

  method AddAll<T>(ring: Ring<T>, items: seq<T>) returns (ok: bool)
    requires ring.Valid() && ring.overwrite && ring.Contents() == []
    modifies ring`tail, ring`head, ring`size, ring.elements
    ensures ring.Valid() && (ok <==> ring.elements.Length > 0 || items == [])
    ensures ok ==> ring.Contents() == LastN(items, ring.elements.Length)
  {
    var i := 0;
    while i < |items|
      invariant i <= |items| && ring.Valid() && ring.Contents() == LastN(items[..i], ring.elements.Length)
      invariant i > 0 ==> ring.elements.Length > 0
    {
      ok := ring.EmplaceBack(items[i]);
      if !ok { return; }
      OneMoreItem(items, i, ring.elements.Length);
      i := i + 1;
    }
    assert items[..i] == items;
    ok := true;
  }

  /** Windows for no items can be constructed, but nothing can be added to them, and no window with an item can become one. */
  method NoRoomForAnItem<T>(x: T, gap: nat) returns (timed: bool, fixed: bool, resized: bool)
    ensures !timed && !fixed && !resized
  {
    var timeWindow := new TimeWindow(gap, 0, i => Item(0, x));
    timed := timeWindow.EmplaceBack(0, x);
    var empty := new FixedWindow(0, i => x);
    fixed := empty.EmplaceBack(x);
    var window := new FixedWindow(1, i => x);
    var added := window.EmplaceBack(x);
    assert window.buffer.Contents() == [x];
    resized := window.Resize(0, i => x);
  }
}
