/**
 * The pending writes of one memory region, grain by grain: cell i holds 0 when nobody writes
 * grain i, and otherwise one more than the highest message id that does.
 */
module PendingWrites {
  import opened Arithmetic

  const SIZE_MAX: nat := 0xFFFF_FFFF_FFFF_FFFF
  const MAX_ID: nat := 0x8000_0000

  type Cells = seq<nat>

  ghost predicate AllZero(c: Cells) {
    forall i :: 0 <= i < |c| ==> c[i] == 0
  }

  /** Pointwise maximum with `id + 1` over `[start, start + size)`. */
  function Pushed(c: Cells, id: nat, start: nat, size: nat): (r: Cells)
    requires start + size <= |c|
    ensures |r| == |c|
  {
    seq(|c|, i requires 0 <= i < |c| => if start <= i < start + size && id >= c[i] then id + 1 else c[i])
  }

  function Cleared(c: Cells, start: nat, size: nat): (r: Cells)
    requires start + size <= |c|
    ensures |r| == |c|
  {
    seq(|c|, i requires 0 <= i < |c| => if start <= i < start + size then 0 else c[i])
  }

  function Grown(c: Cells, size: nat): (r: Cells)
    requires |c| <= size
    ensures |r| == size
  {
    c + seq(size - |c|, i => 0)
  }

  /** `[start, start + size)` is the leftmost maximal run of equal nonzero cells. */
  ghost predicate LeftmostRun(c: Cells, start: nat, size: nat) {
    && 0 < size && start + size <= |c|
    && (forall i :: 0 <= i < start ==> c[i] == 0)
    && c[start] != 0
    && (forall i :: start <= i < start + size ==> c[i] == c[start])
    && (start + size < |c| ==> c[start + size] != c[start])
  }

  /** There is only one leftmost run. */
  lemma LeftmostRunUnique(c: Cells, s: nat, n: nat, s': nat, n': nat)
    requires LeftmostRun(c, s, n) && LeftmostRun(c, s', n')
    ensures s == s' && n == n'
  {
    assert s == s';
    assert n <= n' by {
      if n' < n {
        assert false;
      }
    }
  }

  function NonZeros(c: Cells): nat {
    if c == [] then 0 else NonZeros(c[..|c| - 1]) + if c[|c| - 1] != 0 then 1 else 0
  }

  lemma {:induction false} ClearingDrops(c: Cells, start: nat, size: nat)
    requires start + size <= |c|
    requires forall i :: start <= i < start + size ==> c[i] != 0
    ensures NonZeros(Cleared(c, start, size)) == NonZeros(c) - size
  {
    if c != [] {
      var n := |c| - 1;
      if start + size <= n {
        ClearingDrops(c[..n], start, size);
        assert Cleared(c, start, size)[..n] == Cleared(c[..n], start, size);
      } else if size == 0 {
        assert Cleared(c, start, size) == c;
      } else {
        ClearingDrops(c[..n], start, size - 1);
        assert Cleared(c, start, size)[..n] == Cleared(c[..n], start, size - 1);
      }
    }
  }

  /** The bounds of the nonzero cells, as the structure keeps them. */
  ghost predicate Bounds(c: Cells, min: nat, max: nat) {
    && |c| < SIZE_MAX
    && if AllZero(c) then min == SIZE_MAX && max == 0
       else && min <= max < |c| && c[min] != 0 && c[max] != 0
            && forall i :: 0 <= i < |c| && (i < min || i > max) ==> c[i] == 0
  }

  /**
   * The pushes that keep the bounds: those of at least one grain, and those of none that lie
   * inside or right behind the written range.
   */
  ghost predicate KeepsBounds(min: nat, max: nat, start: nat, size: nat) {
    size > 0 || (0 < start && min <= start <= max + 1)
  }

  /** `start + size - 1` in the unsigned arithmetic of the program. */
  function LastGrain(start: nat, size: nat): nat {
    if start + size == 0 then SIZE_MAX else start + size - 1
  }

  class Writes {
    var min: nat
    var max: nat
    var memory: Cells

    ghost predicate Valid()
      reads this
    {
      Bounds(memory, min, max)
    }

    constructor (size: nat)
      requires size < SIZE_MAX
      ensures Valid() && memory == Grown([], size)
    {
      min, max, memory := SIZE_MAX, 0, seq(size, i => 0);
    }

    method Resize(newSize: nat)
      requires Valid() && |memory| <= newSize < SIZE_MAX
      modifies this
      ensures Valid() && memory == Grown(old(memory), newSize)
    {
      memory := memory + seq(newSize - |memory|, i => 0);
      assert forall i :: 0 <= i < |old(memory)| ==> memory[i] == old(memory)[i];
    }

    /**
     * Forgets the pending writes.  The loop condition is strict, so a single pending grain
     * survives: everything is forgotten exactly when that is not the case.
     */
    method Clear()
      requires Valid()
      modifies this
      ensures memory == if old(min) == old(max) then old(memory) else Cleared(old(memory), 0, |old(memory)|)
      ensures min == SIZE_MAX && max == 0
      ensures Valid() <==> old(min) != old(max)
    {
      if min < max {
        var i := min;
        while i < max + 1
          invariant old(min) <= i <= max + 1 && min == old(min) && max == old(max)
          invariant |memory| == |old(memory)|
          invariant forall j :: 0 <= j < |memory| ==> memory[j] == if min <= j < i then 0 else old(memory)[j]
        {
          memory := memory[i := 0];
          i := i + 1;
        }
      }
      min, max := SIZE_MAX, 0;
    }

    /** The bounds survive exactly the pushes of `KeepsBounds`; the cells are always right. */
    method Push(id: nat, start: nat, size: nat)
      requires Valid() && id < MAX_ID && start + size <= |memory|
      modifies this
      ensures memory == Pushed(old(memory), id, start, size)
      ensures Valid() <==> KeepsBounds(old(min), old(max), start, size)
    {
      for i := start to start + size
        invariant min == old(min) && max == old(max) && |memory| == |old(memory)|
        invariant memory == Pushed(old(memory), id, start, i - start)
      {
        if id >= memory[i] {
          memory := memory[i := id + 1];
        }
      }
      max := Max(max, LastGrain(start, size));
      min := Min(min, start);
      if size > 0 {
        assert memory[start] != 0 && memory[start + size - 1] != 0;
      } else {
        assert memory == old(memory);
      }
    }

    /** Exchanges the contents with another region's. */
    method Swap(other: Writes)
      requires Valid() && other.Valid()
      modifies this, other
      ensures Valid() && other.Valid()
      ensures memory == old(other.memory) && other.memory == old(memory)
    {
      min, other.min := other.min, min;
      max, other.max := other.max, max;
      memory, other.memory := other.memory, memory;
    }

    /** Whether a push of this id would win the grain; the grain behind the last one is free. */
    predicate Test(id: nat, start: nat): (wins: bool)
      reads this
      requires start <= |memory|
      ensures wins <==> start == |memory| || Pushed(memory, id, start, 1)[start] == id + 1 != memory[start]
    {
      start == |memory| || id >= memory[start]
    }

    /** Takes the leftmost maximal run of grains with one id. */
    method Pop() returns (ok: bool, id: nat, start: nat, size: nat)
      requires Valid()
      modifies this
      ensures Valid()
      ensures ok <==> !AllZero(old(memory))
      ensures !ok ==> memory == old(memory)
      ensures ok ==> LeftmostRun(old(memory), start, size) && id == old(memory)[start] - 1
      ensures ok ==> memory == Cleared(old(memory), start, size)
    {
      id, start, size := 0, 0, 0;
      ok := min <= max;
      if !ok {
        return;
      }
      var i := min;
      id := memory[i] - 1;
      memory := memory[i := 0];
      i := i + 1;
      while i <= max && memory[i] == id + 1
        invariant min < i <= max + 1 && min == old(min) && max == old(max)
        invariant forall j :: min <= j < i ==> old(memory)[j] == id + 1
        invariant memory == Cleared(old(memory), min, i - min)
      {
        memory := memory[i := 0];
        i := i + 1;
      }
      start, size := min, i - min;
      min := i;
      while min <= max && memory[min] == 0
        invariant i <= min <= max + 1 && max == old(max) && memory == Cleared(old(memory), start, size)
        invariant forall j :: i <= j < min ==> memory[j] == 0
      {
        min := min + 1;
      }
      if min > max {
        min, max := SIZE_MAX, 0;
      } else {
        assert memory[min] != 0;
      }
    }
  }

  /** A single grain written into an empty table is still there after the table has been cleared. */
  method ClearMissesGrain(n: nat, id: nat, grain: nat) returns (left: Cells)
    requires id < MAX_ID && grain < n < SIZE_MAX
    ensures |left| == n && forall i :: 0 <= i < n ==> left[i] == if i == grain then id + 1 else 0
  {
    var writes := new Writes(n);
    writes.Push(id, grain, 1);
    assert writes.memory[grain] != 0;
    writes.Clear();
    left := writes.memory;
  }
}
