/** The circular block index of an implicit producer in src/concurrent/concurrentqueue.h. Blocks of elements enter it one after
    the other at the tail; a lookup finds the entry of an element's block by its distance from the tail's block, on 64-bit
    indices that wrap around. When the circle is full it is replaced by one of twice the size. */
module BlockIndex {
  import opened Bits

  const INVALID_BLOCK_BASE: nat := 1

  datatype Ref = Null | Block(id: nat)

  /** The 64-bit index of the first element of block number `b`. */
  function Base(blockBits: nat, b: int): nat { Word64(b * Pow2(blockBits)) }

  /** `index & ~(BLOCK_SIZE - 1)` */
  function BlockBase(blockBits: nat, index: nat): int { index - BitAnd(index, Pow2(blockBits) - 1) }

  /** Where the code looks for the entry of `base`, in a circle of `capacity` entries whose tail has key `tailBase`. The code casts
      the distance to a signed type, meaning to keep its sign; but BLOCK_SIZE is unsigned, so the distance is converted back
      and the division is one of unsigned words. */
  function Position(blockBits: nat, base: int, tailBase: nat, tail: nat, capacity: nat): nat
    requires capacity > 0
  {
    BitAnd(Word64(tail + Word64(base - tailBase) / Pow2(blockBits)), capacity - 1)
  }

  /** `k` places before `tail` on a circle. */
  function Back(tail: int, k: int, capacity: int): int { if k <= tail then tail - k else tail - k + capacity }

  /** `k` places after `tail` on a circle. */
  function Around(tail: int, k: int, capacity: int): int { if tail + k < capacity then tail + k else tail + k - capacity }

  // ---------- Arithmetic of the lookup ----------

  /** 2^64 is a whole number of blocks. */
  lemma BlocksInAll(blockBits: nat)
    requires blockBits <= 64
    ensures Pow2(64 - blockBits) * Pow2(blockBits) == 0x1_0000_0000_0000_0000
  {
    Pow2Of64();
    Pow2Sum(64 - blockBits, blockBits);
  }

  lemma BaseIs(blockBits: nat, b: int)
    requires blockBits <= 64
    ensures Base(blockBits, b) == (b % Pow2(64 - blockBits)) * Pow2(blockBits)
    ensures Base(blockBits, b) % Pow2(blockBits) == 0
    ensures Base(blockBits, b) + Pow2(blockBits) <= 0x1_0000_0000_0000_0000
  {
    var bs, m := Pow2(blockBits), Pow2(64 - blockBits);
    BlocksInAll(blockBits);
    ModOfScaled(b, m, bs);
    DivModUnique((b % m) * bs, bs, b % m, 0);
    MulMonotone(b % m + 1, m, bs);
    assert (b % m + 1) * bs == (b % m) * bs + bs;
  }

  /** The base of the block that contains an index, wherever in the block it is. */
  lemma BaseOfIndex(blockBits: nat, b: int, offset: nat)
    requires blockBits <= 64 && offset < Pow2(blockBits)
    ensures BlockBase(blockBits, Word64(b * Pow2(blockBits) + offset)) == Base(blockBits, b)
  {
    var bs, base := Pow2(blockBits), Base(blockBits, b);
    BaseIs(blockBits, b);
    WordOfSum(b * bs, offset);
    MaskIsMod(base + offset, blockBits);
    RemainderOfSum(base, offset, bs);
  }

  lemma WordOfSum(x: int, y: nat)
    requires Word64(x) + y < 0x1_0000_0000_0000_0000
    ensures Word64(x + y) == Word64(x) + y
  {
  }

  /** Dividing before or after reducing to 64 bits by a smaller power of two leaves the same remainder. */
  lemma WordMod(x: int, k: nat)
    requires k <= 64
    ensures Word64(x) % Pow2(k) == x % Pow2(k)
  {
    BlocksInAll(k);
    ModOfMod(x, Pow2(64 - k), Pow2(k));
  }

  /** The 64-bit distance between two blocks that are `k` apart. */
  lemma DistanceIs(blockBits: nat, newest: int, k: nat)
    requires blockBits <= 64 && k < Pow2(64 - blockBits)
    ensures var all := 0x1_0000_0000_0000_0000; var kbs := k * Pow2(blockBits);
      && 0 <= kbs < all
      && (Pow2(64 - blockBits) - k) * Pow2(blockBits) == all - kbs
      && Word64(Base(blockBits, newest - k) - Base(blockBits, newest)) == if kbs == 0 then 0 else all - kbs
  {
    var bs, m := Pow2(blockBits), Pow2(64 - blockBits);
    BlocksInAll(blockBits);
    Distribute(newest, k, bs);
    Distribute(m, k, bs);
    MulMonotone(0, k, bs);
    MulMonotone(1, m - k, bs);
    WordOfDifference((newest - k) * bs, newest * bs);
    WordOfNegative(k * bs);
  }

  lemma WordOfNegative(x: nat)
    requires x < 0x1_0000_0000_0000_0000
    ensures Word64(0 - x) == if x == 0 then 0 else 0x1_0000_0000_0000_0000 - x
  {
  }

  lemma WordOfDifference(x: int, y: int)
    ensures Word64(Word64(x) - Word64(y)) == Word64(x - y)
  {
  }

  /** Divided by the block size, the distance to the block `k` before is that of the other blocks of the 64-bit circle. */
  lemma OffsetIs(blockBits: nat, newest: int, k: nat)
    requires blockBits <= 64 && k < Pow2(64 - blockBits)
    ensures Word64(Base(blockBits, newest - k) - Base(blockBits, newest)) / Pow2(blockBits)
         == if k == 0 then 0 else Pow2(64 - blockBits) - k
  {
    DistanceIs(blockBits, newest, k);
    var bs, m := Pow2(blockBits), Pow2(64 - blockBits);
    if k > 0 { MulMonotone(1, k, bs); }
    DivModUnique(0, bs, 0, 0);
    DivModUnique((m - k) * bs, bs, m - k, 0);
  }

  lemma BackIsMod(capacityBits: nat, tail: nat, k: nat)
    requires tail < Pow2(capacityBits) && k < Pow2(capacityBits)
    ensures (tail - k) % Pow2(capacityBits) == Back(tail, k, Pow2(capacityBits))
  {
    var capacity := Pow2(capacityBits);
    DivModUnique(tail - k, capacity, if k <= tail then 0 else -1, Back(tail, k, capacity));
  }

  /** Going forward by a power of two comes back to the same place on a circle exactly if the circle is not larger. */
  lemma FullTurns(capacityBits: nat, bits: nat, x: int)
    ensures (x + Pow2(bits)) % Pow2(capacityBits) == x % Pow2(capacityBits) <==> capacityBits <= bits
  {
    var capacity := Pow2(capacityBits);
    if capacityBits <= bits {
      Pow2Sum(bits - capacityBits, capacityBits);
      AddMultiple(x, Pow2(bits - capacityBits), capacity);
    } else {
      Pow2Monotone(bits + 1, capacityBits);
      PartOfATurn(x, Pow2(bits), capacity);
    }
  }

  lemma PartOfATurn(x: int, m: nat, capacity: nat)
    requires 0 < m < capacity
    ensures (x + m) % capacity != x % capacity
  {
    var r := x % capacity;
    assert x + m == r + m + (x / capacity) * capacity;
    AddMultiple(r + m, x / capacity, capacity);
    if r + m < capacity { DivModUnique(r + m, capacity, 0, r + m); } else { DivModUnique(r + m, capacity, 1, r + m - capacity); }
  }

  /** The lookup of the block `k` before the tail's goes `k` places back, also when the 64-bit indices have wrapped between
      the two, if and only if the circle has at most one entry for each block of the 64-bit indices. */
  lemma PositionIsBack(blockBits: nat, capacityBits: nat, newest: int, k: nat, tail: nat)
    requires blockBits <= 64 && capacityBits <= 64 && tail < Pow2(capacityBits) && k < Pow2(capacityBits) && k < Pow2(64 - blockBits)
    ensures Position(blockBits, Base(blockBits, newest - k), Base(blockBits, newest), tail, Pow2(capacityBits))
         == Back(tail, k, Pow2(capacityBits))
        <==> k == 0 || blockBits + capacityBits <= 64
  {
    OffsetIs(blockBits, newest, k);
    var o := Word64(Base(blockBits, newest - k) - Base(blockBits, newest)) / Pow2(blockBits);
    MaskIsMod(Word64(tail + o), capacityBits);
    WordMod(tail + o, capacityBits);
    BackIsMod(capacityBits, tail, k);
    if k > 0 {
      FullTurns(capacityBits, 64 - blockBits, tail - k);
      assert tail - k + Pow2(64 - blockBits) == tail + o;
    }
  }

  /** With 32 elements in a block and 2^60 entries, the block before the tail's is not found in the entry before it. */
  lemma LookupMissesInTooLargeACircle(newest: int)
    ensures Position(5, Base(5, newest - 1), Base(5, newest), 1, Pow2(60)) != 0
  {
    Pow2Monotone(1, 59);
    Pow2Monotone(1, 60);
    PositionIsBack(5, 60, newest, 1, 1);
  }

  // ---------- What an index holds, without the circle ----------

  /** The entries from the oldest to the tail's, with their keys and blocks. The last `span` of them are those of the newest
      blocks that entered, which the index can look up; `newest` is the number of the last one, counted without wrapping. */
  datatype Contents = Contents(order: seq<nat>, keys: seq<nat>, values: seq<Ref>, newest: int, span: nat) {

    /** The index can look up block number `b`. */
    predicate Covers(b: int) { newest - span < b <= newest }

    /** The entry of block `b`. */
    function EntryOf(b: int): nat
      requires span <= |order| && Covers(b)
    {
      order[|order| - 1 - (newest - b)]
    }
  }

  predicate Free(keys: seq<nat>, values: seq<Ref>, e: nat) {
    e < |keys| && e < |values| && (keys[e] == INVALID_BLOCK_BASE || values[e] == Null)
  }

  /** All entries are distinct, those of the newest blocks have their keys, and the others are free. */
  ghost predicate Indexes(blockBits: nat, c: Contents) {
    && c.order != [] && c.span <= |c.order| && |c.keys| == |c.values|
    && (forall i | 0 <= i < |c.order| :: c.order[i] < |c.keys|)
    && (forall i, j | 0 <= i < j < |c.order| :: c.order[i] != c.order[j])
    && (forall i | |c.order| - c.span <= i < |c.order| :: c.keys[c.order[i]] == Base(blockBits, c.newest - (|c.order| - 1 - i)))
    && (forall i | 0 <= i < |c.order| - c.span :: Free(c.keys, c.values, c.order[i]))
  }

  predicate OldestIsFree(c: Contents) { c.order != [] && Free(c.keys, c.values, c.order[0]) }

  /** The oldest entry becomes that of the next block. */
  function EnterBlock(blockBits: nat, c: Contents): Contents
    requires c.order != [] && c.order[0] < |c.keys|
  {
    Contents(c.order[1..] + [c.order[0]], c.keys[c.order[0] := Base(blockBits, c.newest + 1)], c.values, c.newest + 1,
      if c.span < |c.order| then c.span + 1 else c.span)
  }

  /** As many new entries as there are, which count as the oldest. */
  function Grow(c: Contents): Contents {
    Contents(NewEntries(|c.keys|, |c.order|) + c.order, c.keys + seq(|c.order|, i => INVALID_BLOCK_BASE),
      c.values + seq(|c.order|, i => Null), c.newest, c.span)
  }

  function NewEntries(first: nat, n: nat): seq<nat> { seq(n, i => first + i) }

  lemma EnterBlockIndexes(blockBits: nat, c: Contents)
    requires Indexes(blockBits, c) && OldestIsFree(c)
    ensures Indexes(blockBits, EnterBlock(blockBits, c))
  {
  }

  lemma GrowIndexes(blockBits: nat, c: Contents)
    requires Indexes(blockBits, c)
    ensures Indexes(blockBits, Grow(c)) && OldestIsFree(Grow(c))
  {
  }

  /** A lookup finds the same entry, with the same key and block, before and after the index grows. */
  lemma GrowKeepsLookups(blockBits: nat, c: Contents, b: int)
    requires Indexes(blockBits, c) && c.Covers(b)
    ensures Grow(c).Covers(b) && Grow(c).EntryOf(b) == c.EntryOf(b)
    ensures Grow(c).keys[c.EntryOf(b)] == Base(blockBits, b) && Grow(c).values[c.EntryOf(b)] == c.values[c.EntryOf(b)]
  {
  }

  /** When a block enters, every other block that is still in use is found where it was. */
  lemma EnterKeepsLookups(blockBits: nat, c: Contents, b: int)
    requires 1 <= blockBits <= 64 && Indexes(blockBits, c) && OldestIsFree(c) && c.Covers(b) && c.values[c.EntryOf(b)] != Null
    ensures EnterBlock(blockBits, c).Covers(b) && EnterBlock(blockBits, c).EntryOf(b) == c.EntryOf(b)
    ensures EnterBlock(blockBits, c).keys[c.EntryOf(b)] == Base(blockBits, b)
  {
    var e, oldest := c.EntryOf(b), c.order[0];
    BaseIsValid(blockBits, b);
    assert c.keys[e] == Base(blockBits, b);
    assert e != oldest;
  }

  lemma SetBlockIndexes(blockBits: nat, c: Contents, b: int, block: Ref)
    requires Indexes(blockBits, c) && c.Covers(b)
    ensures Indexes(blockBits, c.(values := c.values[c.EntryOf(b) := block]))
  {
  }

  /** The base of a block is never the mark of an unused entry. */
  lemma BaseIsValid(blockBits: nat, b: int)
    requires 1 <= blockBits <= 64
    ensures Base(blockBits, b) != INVALID_BLOCK_BASE
  {
    BaseIs(blockBits, b);
    DivModUnique(1, Pow2(blockBits), 0, 1);
  }

  // ---------- The index ----------

  /** An entry is a number: its key is `keys[e]`, the block it refers to `values[e]`. */
  class ImplicitIndex {
    const blockBits: nat          // BLOCK_SIZE is Pow2(blockBits)
    var index: array<nat>         // the circle of entries
    var tail: nat
    var nextCapacity: nat
    var keys: seq<nat>
    var values: seq<Ref>
    ghost var capacityBits: nat
    ghost var contents: Contents

    ghost predicate Valid()
      reads this, index
    {
      && 1 <= blockBits && blockBits + capacityBits <= 64
      && index.Length == Pow2(capacityBits) && nextCapacity == 2 * index.Length && tail < index.Length
      && contents.order == index[tail + 1..] + index[..tail + 1]
      && contents.keys == keys && contents.values == values
      && Indexes(blockBits, contents)
    }

    /** An empty index: new_block_index when there is none yet. */
    constructor (blockBits: nat, initialBits: nat)
      requires 1 <= blockBits && 1 <= initialBits && blockBits + initialBits <= 64
      ensures Valid() && fresh(index) && contents.span == 0 && contents.newest == -1 && this.blockBits == blockBits
    {
      var capacity := Pow2(initialBits);
      this.blockBits, capacityBits := blockBits, initialBits;
      index := new nat[capacity](i => i);
      keys, values := seq(capacity, i => INVALID_BLOCK_BASE), seq(capacity, i => Null);
      tail, nextCapacity := capacity - 1, 2 * capacity;
      contents := Contents(seq(capacity, i => i), seq(capacity, i => INVALID_BLOCK_BASE), seq(capacity, i => Null), -1, 0);
    }

    /** get_block_index_index_for_index: finds the entry of the block that holds the element with 64-bit index `i`. */
    method Lookup(i: nat, ghost b: int, ghost offset: nat) returns (position: nat)
      requires Valid() && contents.Covers(b)
      requires offset < Pow2(blockBits) && i == Word64(b * Pow2(blockBits) + offset)
      ensures position < index.Length && index[position] == contents.EntryOf(b)
      ensures keys[index[position]] == Base(blockBits, b)
    {
      assert index[tail] == contents.order[|contents.order| - 1];
      var base := BlockBase(blockBits, i);
      var tailBase := keys[index[tail]];
      position := Position(blockBits, base, tailBase, tail, index.Length);
      BaseOfIndex(blockBits, b, offset);
      Pow2Monotone(capacityBits, 64 - blockBits);
      PositionIsBack(blockBits, capacityBits, contents.newest, contents.newest - b, tail);
      assert index[Back(tail, contents.newest - b, index.Length)] == contents.EntryOf(b);
    }

    /** The copying loops of new_block_index. */
    method CopyDoubled() returns (larger: array<nat>)
      requires Valid()
      ensures fresh(larger) && larger.Length == 2 * index.Length
      ensures larger[..index.Length] == contents.order && larger[index.Length..] == NewEntries(|keys|, index.Length)
    {
      var prevCapacity := index.Length;
      larger := new nat[nextCapacity];
      var prevPos, i := tail, 0;
      while true
        invariant 0 <= i < prevCapacity && prevPos == Around(tail, i, prevCapacity)
        invariant forall k | 0 <= k < i :: larger[k] == contents.order[k]
        decreases prevCapacity - i
        modifies larger
      {
        ForwardIs(prevPos, capacityBits);
        prevPos := Forward(prevPos, prevCapacity);
        larger[i] := index[prevPos];
        i := i + 1;
        if prevPos == tail {
          break;
        }
      }
      var j := 0;
      while j != prevCapacity
        invariant 0 <= j <= prevCapacity
        invariant forall k | 0 <= k < prevCapacity :: larger[k] == contents.order[k]
        invariant forall k | prevCapacity <= k < prevCapacity + j :: larger[k] == |keys| + k - prevCapacity
        modifies larger
      {
        larger[prevCapacity + j] := |keys| + j;
        j := j + 1;
      }
    }

    /** new_block_index. There is no memory for a circle with more entries than the 64-bit indices have blocks, in which a lookup
        would go wrong. */
    method NewBlockIndex(memory: bool) returns (ok: bool)
      requires Valid() && (memory ==> blockBits + capacityBits < 64)
      modifies this
      ensures Valid() && ok == memory
      ensures contents == if ok then Grow(old(contents)) else old(contents)
    {
      if !memory {
        return false;
      }
      var larger := CopyDoubled();
      ghost var grown := Grow(contents);
      GrowIndexes(blockBits, contents);
      keys := keys + seq(index.Length, i => INVALID_BLOCK_BASE);
      values := values + seq(index.Length, i => Null);
      index, tail, nextCapacity := larger, index.Length - 1, 2 * nextCapacity;
      capacityBits, contents := capacityBits + 1, grown;
      return true;
    }

    /** The part of insert_block_index_entry that enters the block, once there is an entry for it. */
    method Enter(blockStart: nat) returns (e: nat)
      requires Valid() && blockStart == Base(blockBits, contents.newest + 1) && OldestIsFree(contents)
      modifies this`keys, this`tail, this`contents
      ensures Valid() && contents == EnterBlock(blockBits, old(contents))
      ensures e == contents.EntryOf(contents.newest)
    {
      ForwardIs(tail, capacityBits);
      var newTail := Forward(tail, index.Length);
      e := index[newTail];
      EnterBlockIndexes(blockBits, contents);
      RotateCircle(index[..], tail, newTail);
      keys, tail := keys[e := blockStart], newTail;
      contents := EnterBlock(blockBits, contents);
    }

    /** insert_block_index_entry: the next block enters the index. It takes the oldest entry when that one is not in use, or else
        a new one. */
    method InsertEntry(blockStart: nat, mayAllocate: bool, memory: bool) returns (ok: bool, e: nat)
      requires Valid() && blockStart == Base(blockBits, contents.newest + 1)
      requires !OldestIsFree(contents) && mayAllocate && memory ==> blockBits + capacityBits < 64
      modifies this
      ensures Valid()
      ensures ok <==> OldestIsFree(old(contents)) || (mayAllocate && memory)
      ensures contents ==
        if !ok then old(contents)
        else EnterBlock(blockBits, if OldestIsFree(old(contents)) then old(contents) else Grow(old(contents)))
      ensures ok ==> e == contents.EntryOf(contents.newest)
    {
      ForwardIs(tail, capacityBits);
      e := index[Forward(tail, index.Length)];
      assert e == contents.order[0];
      ok := true;
      if keys[e] != INVALID_BLOCK_BASE && values[e] != Null {
        if !mayAllocate {
          return false, e;
        }
        GrowIndexes(blockBits, contents);
        ok := NewBlockIndex(memory);
        if !ok {
          return;
        }
      }
      e := Enter(blockStart);
    }

    /** The block of an entry is stored, or dropped when its last element has been dequeued. */
    method SetBlock(e: nat, block: Ref, ghost b: int)
      requires Valid() && contents.Covers(b) && contents.EntryOf(b) == e
      modifies this`values, this`contents
      ensures Valid() && contents == old(contents).(values := old(values)[e := block])
    {
      SetBlockIndexes(blockBits, contents, b, block);
      values := values[e := block];
      contents := contents.(values := values);
    }
  }

  /** Moving the tail one place forward moves the oldest entry to the end. */
  lemma RotateCircle(circle: seq<nat>, tail: nat, next: nat)
    requires tail < |circle| && next == if tail + 1 == |circle| then 0 else tail + 1
    ensures var order := circle[tail + 1..] + circle[..tail + 1];
      circle[next] == order[0] && circle[next + 1..] + circle[..next + 1] == order[1..] + [order[0]]
  {
  }

  /** `(p + 1) & (capacity - 1)` */
  function Forward(p: nat, capacity: nat): nat
    requires capacity > 0
  {
    BitAnd(p + 1, capacity - 1)
  }

  lemma ForwardIs(p: nat, k: nat)
    requires p < Pow2(k)
    ensures Forward(p, Pow2(k)) == if p + 1 == Pow2(k) then 0 else p + 1
  {
    MaskIsMod(p + 1, k);
    DivModUnique(p + 1, Pow2(k), if p + 1 == Pow2(k) then 1 else 0, if p + 1 == Pow2(k) then 0 else p + 1);
  }
}
