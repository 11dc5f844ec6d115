/**
 * Resolution of conflicting writes to registered memory: slots are merged into regions, pushed
 * writes are kept per grain of a region, and popped as disjoint runs.
 */
module MessageSorting {
  import opened Arithmetic
  import opened PendingWrites
  import opened SparseSets
  import opened Serialisation
  import opened Regions
  import opened Grains

  class MessageSort {
    const grain: Grain
    const dirty: SparseSet
    var memslots: seq<Slot>
    var regions: seq<Region>
    var sortedRegions: seq<Region>
    var slotToRegion: seq<SlotToRegion>
    var writes: seq<Writes>
    ghost var registered: set<nat>

    ghost function Pending(): (c: seq<Cells>)
      reads this, writes
      ensures |c| == |writes| && forall r :: 0 <= r < |writes| ==> c[r] == writes[r].memory
    {
      seq(|writes|, r reads this, writes requires 0 <= r < |writes| => writes[r].memory)
    }

    /** What address a is labelled with by the writes that are pending. */
    ghost function LabelOf(a: nat): nat
      reads this, writes
    {
      LabelAt(regions, Pending(), grain, a)
    }

    ghost predicate NothingPending()
      reads this, writes
    {
      forall r :: 0 <= r < |writes| ==> AllZero(writes[r].memory)
    }

    ghost predicate SlotsPlaced()
      reads this
    {
      && |memslots| == |slotToRegion|
      && forall id: nat :: id in registered ==>
        id < |memslots| && Placed(regions, sortedRegions, memslots[id], slotToRegion[id])
    }

    /** Every region with pending writes is on the dirty list. */
    ghost predicate DirtyTracked()
      reads this, dirty, writes
    {
      && dirty.Valid() && dirty.min == 0
      && |writes| <= dirty.max + 1
      && (forall o: nat :: o in dirty.Order() ==> o < |writes|)
      && forall r: nat :: r < |writes| && !AllZero(writes[r].memory) ==> r in dirty.Order()
    }

    /** Everything but the bounds inside the write tables. */
    ghost predicate Formed()
      reads this, dirty, writes
    {
      && (forall i, j :: 0 <= i < j < |writes| ==> writes[i] != writes[j])
      && (forall i :: 0 <= i < |regions| ==> End(regions[i]) < SIZE_MAX)
      && Layout(regions, sortedRegions, Pending(), grain)
      && SlotsPlaced() && DirtyTracked()
    }

    ghost predicate Valid()
      reads this, dirty, writes
    {
      Formed() && forall i :: 0 <= i < |writes| ==> writes[i].Valid()
    }

    constructor (power: nat)
      ensures Valid() && NothingPending() && registered == {} && memslots == [] && grain == Pow2(power)
      ensures fresh(dirty) && writes == []
    {
      grain := Pow2(power);
      dirty := new SparseSet(0, 0);
      memslots, regions, sortedRegions, slotToRegion, writes := [], [], [], [], [];
      registered := {};
    }

    method SetSlotRange(range: nat)
      requires Valid() && |memslots| <= range
      modifies this`memslots, this`slotToRegion
      ensures Valid() && |memslots| == range && old(memslots) <= memslots && old(slotToRegion) <= slotToRegion
      ensures forall a: nat :: LabelOf(a) == old(LabelOf(a))
    {
      var n := range - |memslots|;
      memslots := memslots + seq(n, i => Slot(0, 0, 0));
      slotToRegion := slotToRegion + seq(n, i => SlotToRegion(0, 0));
      assert Pending() == old(Pending());
    }

    // -------------------------------------------------------------- registering memory

    method GrowDirty()
      requires Valid()
      modifies dirty
      ensures Valid() && |regions| <= dirty.max && dirty.Order() == old(dirty.Order())
      ensures Pending() == old(Pending()) && NothingPending() == old(NothingPending())
    {
      while |regions| > dirty.max
        invariant Valid() && dirty.Order() == old(dirty.Order())
        decreases |regions| - dirty.max
      {
        dirty.Extend(Max(1, 2 * dirty.max));
      }
    }

    /** The whole extent of the regions `[lo, hi)` of the index together with a new one. */
    method Extent(lo: nat, hi: nat, x: Region) returns (m: Region)
      requires lo <= hi <= |sortedRegions|
      ensures m == Merged(sortedRegions, lo, hi, x)
    {
      var minBase, maxAddr, minRegion := x.base, x.base + x.size, x.region;
      for i := lo to hi
        invariant minBase == MinBase(sortedRegions, lo, i, x.base)
        invariant maxAddr == MaxEnd(sortedRegions, lo, i, End(x))
        invariant minRegion == MinRegion(sortedRegions, lo, i, x.region)
      {
        var r := sortedRegions[i];
        if r.base < minBase {
          minBase := r.base;
        }
        if r.base + r.size > maxAddr {
          maxAddr := r.base + r.size;
        }
        if r.region < minRegion {
          minRegion := r.region;
        }
      }
      m := Region(minRegion, minBase, maxAddr - minBase);
    }

    ghost predicate WritesApart()
      reads this, writes
    {
      && (forall i, j :: 0 <= i < j < |writes| ==> writes[i] != writes[j])
      && forall i :: 0 <= i < |writes| ==> writes[i].Valid()
    }

    /** Takes its write space away from a region. */
    method DiscardRegion(r: nat)
      requires WritesApart() && r < |writes|
      modifies writes[r]
      ensures WritesApart() && Pending() == old(Pending())[r := []]
    {
      ghost var cells := Pending();
      var empty := new Writes(0);
      writes[r].Swap(empty);
      assert Pending() == cells[r := []];
    }

    /** Takes the write space away from the regions of a merge that do not survive it. */
    method Discard(range: seq<Region>, keep: nat)
      requires WritesApart() && forall i :: 0 <= i < |range| ==> range[i].region < |writes|
      modifies writes
      ensures WritesApart()
      ensures forall r: nat :: r < |writes| ==>
                Pending()[r] == if r != keep && Live(range, r) then [] else old(Pending())[r]
    {
      ghost var cells := Pending();
      assert Pending() == Dropped(cells, range[..0], keep);
      for i := 0 to |range|
        invariant WritesApart() && Pending() == Dropped(cells, range[..i], keep)
      {
        assert range[..i + 1] == range[..i] + [range[i]];
        DroppedExtends(cells, range[..i], range[i], keep);
        if range[i].region != keep {
          DiscardRegion(range[i].region);
        }
      }
      assert range[..|range|] == range;
    }

    /** Points the slots of merged regions to the region they have been merged into. */
    method Relabel(range: seq<Region>, m: Region)
      requires |memslots| == |slotToRegion|
      modifies this`slotToRegion
      ensures |slotToRegion| == |old(slotToRegion)|
      ensures forall s: nat :: s < |slotToRegion| ==>
                slotToRegion[s] == Relabelled(range, m, memslots[s], old(slotToRegion)[s])
    {
      for s := 0 to |slotToRegion|
        invariant |slotToRegion| == |old(slotToRegion)|
        invariant forall t: nat :: t < |slotToRegion| ==>
                    slotToRegion[t] == if t < s then Relabelled(range, m, memslots[t], old(slotToRegion)[t])
                                       else old(slotToRegion)[t]
      {
        ghost var before := slotToRegion;
        for i := 0 to |range|
          invariant |slotToRegion| == |before|
          invariant forall t: nat :: t < |slotToRegion| && t != s ==> slotToRegion[t] == before[t]
          invariant slotToRegion[s] == if exists j :: 0 <= j < i && range[j].region == before[s].region
                                       then SlotToRegion(m.region, memslots[s].base - m.base) else before[s]
        {
          if slotToRegion[s].region == range[i].region {
            slotToRegion := slotToRegion[s := SlotToRegion(m.region, memslots[s].base - m.base)];
          }
        }
      }
    }

    /** Gives a new region its write space, or extends the oldest region of a merge. */
    method StoreRegion(lo: nat, hi: nat, m: Region)
      requires WritesApart() && lo <= hi <= |sortedRegions| && Layout(regions, sortedRegions, Pending(), grain)
      requires Whole(m.size, grain) < SIZE_MAX
      requires if lo == hi then m.region == |regions|
               else m.region < |regions| && |Pending()[m.region]| <= Whole(m.size, grain)
      modifies this`regions, this`writes, writes
      ensures WritesApart() && forall i :: 0 <= i < |writes| ==> writes[i] in old(writes) || fresh(writes[i])
      ensures regions == if lo == hi then old(regions) + [m] else old(regions)[m.region := m]
      ensures lo == hi ==> Pending() == old(Pending()) + [Grown([], Whole(m.size, grain))]
      ensures lo < hi ==> CellsMerged(old(Pending()), Pending(), sortedRegions[lo..hi], m, grain)
    {
      ghost var cells := Pending();
      var grains := Whole(m.size, grain);
      if lo == hi {
        var space := new Writes(grains);
        writes := writes + [space];
        regions := regions + [m];
        assert Pending() == cells + [Grown([], grains)];
      } else {
        writes[m.region].Resize(grains);
        regions := regions[m.region := m];
        assert Pending() == cells[m.region := Grown(cells[m.region], grains)];
        Discard(sortedRegions[lo..hi], m.region);
      }
    }

    /**
     * Registers memory under a slot.  Every region that overlaps or touches it becomes part of one
     * merged region; nothing else changes.
     */
    method AddRegister(id: nat, base: nat, size: nat)
      requires Valid() && id < |memslots| && base + size < SIZE_MAX
      modifies this`memslots, this`regions, this`sortedRegions, this`slotToRegion, this`writes, this`registered
      modifies dirty, writes
      ensures Valid() && registered == old(registered) + {id}
      ensures forall i :: 0 <= i < |writes| ==> writes[i] in old(writes) || fresh(writes[i])
      ensures memslots == old(memslots)[id := Slot(id, base, size)]
      ensures sortedRegions == WithRegion(old(sortedRegions), Region(|old(regions)|, base, size))
      ensures CellsJoined(old(sortedRegions), Region(|old(regions)|, base, size), old(Pending()), Pending(), grain)
      ensures old(NothingPending()) ==> NothingPending()
    {
      GrowDirty();
      AddGrown(id, base, size);
    }

    method AddGrown(id: nat, base: nat, size: nat)
      requires Valid() && id < |memslots| && base + size < SIZE_MAX && |regions| <= dirty.max
      modifies this`memslots, this`regions, this`sortedRegions, this`slotToRegion, this`writes, this`registered
      modifies writes
      ensures Valid() && registered == old(registered) + {id}
      ensures forall i :: 0 <= i < |writes| ==> writes[i] in old(writes) || fresh(writes[i])
      ensures memslots == old(memslots)[id := Slot(id, base, size)]
      ensures sortedRegions == WithRegion(old(sortedRegions), Region(|old(regions)|, base, size))
      ensures CellsJoined(old(sortedRegions), Region(|old(regions)|, base, size), old(Pending()), Pending(), grain)
      ensures old(NothingPending()) ==> NothingPending()
    {
      var x := Region(|regions|, base, size);
      var lo, hi, m := FindPlan(x);
      RegisterTracked(lo, hi, x, m, id);
    }

    /** Which regions a new one is merged with, and into what. */
    method FindPlan(x: Region) returns (lo: nat, hi: nat, m: Region)
      requires Valid() && x.region == |regions| && End(x) < SIZE_MAX
      ensures Valid() && Plan(regions, sortedRegions, Pending(), grain, lo, hi, x, m)
      ensures lo == LowerBound(sortedRegions, x) && hi == UpperBound(sortedRegions, x) && Pending() == old(Pending())
      ensures WithRegion(sortedRegions, x) == Replaced(sortedRegions, lo, hi, m)
    {
      lo, hi := LowerBound(sortedRegions, x), UpperBound(sortedRegions, x);
      PlanExists(regions, sortedRegions, Pending(), grain, x);
      m := Extent(lo, hi, x);
    }

    method RegisterTracked(lo: nat, hi: nat, x: Region, m: Region, id: nat)
      requires Valid() && |regions| <= dirty.max && id < |memslots|
      requires Plan(regions, sortedRegions, Pending(), grain, lo, hi, x, m)
      modifies this`memslots, this`regions, this`sortedRegions, this`slotToRegion, this`writes, this`registered
      modifies writes
      ensures Valid() && forall i :: 0 <= i < |writes| ==> writes[i] in old(writes) || fresh(writes[i])
      ensures old(NothingPending()) ==> NothingPending()
      ensures memslots == old(memslots)[id := Slot(id, x.base, x.size)] && registered == old(registered) + {id}
      ensures sortedRegions == Replaced(old(sortedRegions), lo, hi, m)
      ensures CellsStored(old(Pending()), Pending(), old(sortedRegions)[lo..hi], m, grain)
    {
      ghost var order, cells := dirty.Order(), Pending();
      Register(lo, hi, x, m, id);
      StoredEnds(old(regions), regions, lo, hi, m);
      assert dirty.Order() == order;
      forall r: nat | r < |writes| && !AllZero(writes[r].memory) ensures r in dirty.Order() {
        assert !AllZero(Pending()[r]);
        assert !AllZero(cells[r]);
      }
      forall r: nat | r < |writes| && old(NothingPending()) ensures AllZero(writes[r].memory) {
        assert r < |cells| ==> AllZero(cells[r]);
        assert AllZero(Pending()[r]);
      }
    }

    method Register(lo: nat, hi: nat, x: Region, m: Region, id: nat)
      requires WritesApart() && Layout(regions, sortedRegions, Pending(), grain) && SlotsPlaced() && id < |memslots|
      requires Plan(regions, sortedRegions, Pending(), grain, lo, hi, x, m)
      modifies this`memslots, this`regions, this`sortedRegions, this`slotToRegion, this`writes, this`registered
      modifies writes
      ensures WritesApart() && forall i :: 0 <= i < |writes| ==> writes[i] in old(writes) || fresh(writes[i])
      ensures Layout(regions, sortedRegions, Pending(), grain) && SlotsPlaced()
      ensures RegionsStored(old(regions), regions, lo, hi, m)
      ensures forall r: nat :: r < |writes| && !AllZero(Pending()[r]) ==>
                r < |old(writes)| && !AllZero(old(Pending())[r])
      ensures memslots == old(memslots)[id := Slot(id, x.base, x.size)] && registered == old(registered) + {id}
      ensures sortedRegions == Replaced(old(sortedRegions), lo, hi, m)
      ensures CellsStored(old(Pending()), Pending(), old(sortedRegions)[lo..hi], m, grain)
    {
      Store(lo, hi, m, id, x.base, x.size);
      Registers(old(regions), old(sortedRegions), old(Pending()), old(memslots), old(slotToRegion), old(registered),
                lo, hi, x, id);
    }

    method Store(lo: nat, hi: nat, m: Region, id: nat, base: nat, size: nat)
      requires WritesApart() && lo <= hi <= |sortedRegions| && Layout(regions, sortedRegions, Pending(), grain)
      requires |memslots| == |slotToRegion| && id < |memslots| && Whole(m.size, grain) < SIZE_MAX
      requires if lo == hi then m.region == |regions|
               else m.region < |regions| && |Pending()[m.region]| <= Whole(m.size, grain)
      modifies this`memslots, this`regions, this`sortedRegions, this`slotToRegion, this`writes, this`registered
      modifies writes
      ensures WritesApart() && forall i :: 0 <= i < |writes| ==> writes[i] in old(writes) || fresh(writes[i])
      ensures RegionsStored(old(regions), regions, lo, hi, m)
      ensures CellsStored(old(Pending()), Pending(), old(sortedRegions)[lo..hi], m, grain)
      ensures forall r: nat :: r < |writes| && !AllZero(Pending()[r]) ==>
                r < |old(writes)| && !AllZero(old(Pending())[r])
      ensures memslots == old(memslots)[id := Slot(id, base, size)] && registered == old(registered) + {id}
      ensures sortedRegions == Replaced(old(sortedRegions), lo, hi, m)
      ensures |slotToRegion| == |memslots| && slotToRegion[id] == SlotToRegion(m.region, base - m.base)
      ensures forall s: nat :: s < |memslots| && s != id ==>
                slotToRegion[s] == Relabelled(old(sortedRegions)[lo..hi], m, old(memslots)[s], old(slotToRegion)[s])
    {
      ghost var cells, range := Pending(), sortedRegions[lo..hi];
      StoreRegion(lo, hi, m);
      ghost var cells' := Pending();
      KeepsEmpty(cells, cells', range, m, grain);
      StoreSlot(lo, hi, m, id, base, size);
      assert Pending() == cells';
    }

    /** Records the slot, points the merged slots to the merged region, and replaces the index entries. */
    method StoreSlot(lo: nat, hi: nat, m: Region, id: nat, base: nat, size: nat)
      requires |memslots| == |slotToRegion| && id < |memslots| && lo <= hi <= |sortedRegions|
      modifies this`memslots, this`sortedRegions, this`slotToRegion, this`registered
      ensures memslots == old(memslots)[id := Slot(id, base, size)] && registered == old(registered) + {id}
      ensures sortedRegions == Replaced(old(sortedRegions), lo, hi, m)
      ensures |slotToRegion| == |memslots| && slotToRegion[id] == SlotToRegion(m.region, base - m.base)
      ensures forall s: nat :: s < |memslots| && s != id ==>
                slotToRegion[s] == Relabelled(old(sortedRegions)[lo..hi], m, old(memslots)[s], old(slotToRegion)[s])
    {
      memslots := memslots[id := Slot(id, base, size)];
      if lo < hi {
        Relabel(sortedRegions[lo..hi], m);
      }
      sortedRegions := sortedRegions[..lo] + [m] + sortedRegions[hi..];
      slotToRegion := slotToRegion[id := SlotToRegion(m.region, base - m.base)];
      registered := registered + {id};
    }

    /** The state after a registration, as the steps of AddRegister leave it, is well formed. */
    lemma Registers(regions0: seq<Region>, sorted0: seq<Region>, cells0: seq<Cells>,
                    memslots0: seq<Slot>, at0: seq<SlotToRegion>, registered0: set<nat>,
                    lo: nat, hi: nat, x: Region, id: nat)
      requires Layout(regions0, sorted0, cells0, grain) && x.region == |regions0| && lo <= hi <= |sorted0|
      requires |memslots0| == |at0| && id < |memslots0|
      requires forall s: nat :: s in registered0 ==> s < |memslots0| && Placed(regions0, sorted0, memslots0[s], at0[s])
      requires Separated(Replaced(sorted0, lo, hi, Merged(sorted0, lo, hi, x)))
      requires lo == hi ==> Merged(sorted0, lo, hi, x) == x
      requires lo < hi ==> Live(sorted0[lo..hi], Merged(sorted0, lo, hi, x).region)
      requires RegionsStored(regions0, regions, lo, hi, Merged(sorted0, lo, hi, x))
      requires CellsStored(cells0, Pending(), sorted0[lo..hi], Merged(sorted0, lo, hi, x), grain)
      requires sortedRegions == Replaced(sorted0, lo, hi, Merged(sorted0, lo, hi, x))
      requires memslots == memslots0[id := Slot(id, x.base, x.size)]
      requires |slotToRegion| == |at0|
      requires slotToRegion[id] == var m := Merged(sorted0, lo, hi, x); SlotToRegion(m.region, x.base - m.base)
      requires forall s: nat :: s < |at0| && s != id ==>
                 slotToRegion[s] == Relabelled(sorted0[lo..hi], Merged(sorted0, lo, hi, x), memslots0[s], at0[s])
      requires registered == registered0 + {id}
      ensures Layout(regions, sortedRegions, Pending(), grain) && SlotsPlaced()
    {
      KeepsLayout(regions0, sorted0, cells0, regions, Pending(), lo, hi, x, grain);
      forall s: nat | s in registered
        ensures s < |memslots| && Placed(regions, sortedRegions, memslots[s], slotToRegion[s])
      {
        if s == id {
          NewSlotPlaced(regions, sorted0, lo, hi, x, id);
        } else {
          KeepsSlot(regions0, sorted0, cells0, regions, lo, hi, x, grain, memslots0[s], at0[s]);
        }
      }
    }

    /** Forgets a slot.  Its region and its pending writes stay. */
    method DelRegister(id: nat)
      requires Valid() && id in registered
      modifies this`memslots, this`slotToRegion, this`registered
      ensures Valid() && registered == old(registered) - {id}
      ensures memslots == old(memslots)[id := Slot(SIZE_MAX, 0, 0)]
      ensures slotToRegion == old(slotToRegion)[id := SlotToRegion(SIZE_MAX, SIZE_MAX)]
      ensures forall a: nat :: LabelOf(a) == old(LabelOf(a))
    {
      memslots := memslots[id := Slot(SIZE_MAX, 0, 0)];
      slotToRegion := slotToRegion[id := SlotToRegion(SIZE_MAX, SIZE_MAX)];
      registered := registered - {id};
      assert Pending() == old(Pending());
    }

    /** Every table knows more than one pending grain, or none. */
    ghost predicate NoLonelyGrain()
      reads this, writes
    {
      forall i :: 0 <= i < |writes| ==> writes[i].min != writes[i].max
    }

    /**
     * Forgets all pending writes.  A region whose only pending write is a single grain keeps it,
     * so everything is forgotten exactly when there is no such region.
     */
    method Clear()
      requires Valid()
      modifies dirty, writes
      ensures old(NoLonelyGrain()) <==> NothingPending()
      ensures old(NoLonelyGrain()) ==> Valid()
      ensures dirty.Valid() && dirty.Order() == []
    {
      dirty.Clear();
      ClearWrites();
      if old(NoLonelyGrain()) {
        LayoutOfShape(regions, sortedRegions, old(Pending()), Pending(), grain);
      }
    }

    method ClearWrites()
      requires WritesApart()
      modifies writes
      ensures forall i :: 0 <= i < |writes| ==> |writes[i].memory| == |old(writes[i].memory)|
      ensures old(NoLonelyGrain()) <==> NothingPending()
      ensures old(NoLonelyGrain()) ==> WritesApart()
    {
      for i := 0 to |writes|
        invariant forall j :: 0 <= j < |writes| ==> |writes[j].memory| == |old(writes[j].memory)|
        invariant forall j :: i <= j < |writes| ==>
                    writes[j].Valid() && writes[j].min == old(writes[j].min) && writes[j].max == old(writes[j].max)
        invariant forall j :: 0 <= j < i ==>
                    && (AllZero(writes[j].memory) <==> old(writes[j].min) != old(writes[j].max))
                    && (writes[j].Valid() <==> old(writes[j].min) != old(writes[j].max))
      {
        writes[i].Clear();
      }
    }

    // -------------------------------------------------------------- pushing and popping

    /** The part of a push that is kept: its whole grains, counted in the region of the slot. */
    function Cut(slot: nat, offset: nat, size: nat): (nat, nat, nat)
      reads this
      requires slot < |slotToRegion| && slotToRegion[slot].offset >= 0
      requires Padding(slotToRegion[slot].offset + offset, grain) <= size
    {
      CutGrains(slotToRegion[slot].offset + offset, size, grain)
    }

    /** The grain of address a lies wholly in `[offset, offset + size)` of the slot. */
    ghost predicate Covers(slot: nat, offset: nat, size: nat, a: nat)
      reads this
      requires slot < |slotToRegion| && slot < |memslots| && slotToRegion[slot].region < |regions|
    {
      var lo := memslots[slot].base + offset;
      GrainWithin(regions[slotToRegion[slot].region].base, grain, lo, lo + size, a)
    }

    /**
     * Pushes a write of message `id` to `[offset, offset + size)` of a slot.  The write is cut to
     * just those addresses whose whole grain lies in the range, and their labels rise to `id + 1`.
     */
    method PushWrite(id: nat, slot: nat, offset: nat, size: nat) returns (offset': nat, size': nat)
      requires Valid() && id < MAX_ID && slot in registered
      requires offset + size <= memslots[slot].size
      requires size > 0 ==> Padding(slotToRegion[slot].offset + offset, grain) <= size
      modifies writes, dirty
      ensures Formed()
      ensures size == 0 ==> Valid() && offset' == offset && size' == 0
      ensures size > 0 ==> offset' == offset + Padding(slotToRegion[slot].offset + offset, grain)
      ensures size > 0 ==>
                var w, (_, first, n) := old(writes[slotToRegion[slot].region]), old(Cut(slot, offset, size));
                Valid() <==> KeepsBounds(old(w.min), old(w.max), first, n)
      ensures forall a: nat ::
                Hits(Write(id, memslots[slot].base + offset', size'), a) <==> Covers(slot, offset, size, a)
      ensures forall a: nat :: LabelOf(a) == if Covers(slot, offset, size, a) && old(LabelOf(a)) <= id
                                             then id + 1 else old(LabelOf(a))
    {
      offset', size' := offset, size;
      if size == 0 {
        assert Pending() == old(Pending());
      } else {
        offset', size' := PushWholeGrains(id, slot, offset, size);
        assert Placed(regions, sortedRegions, memslots[slot], slotToRegion[slot]);
        forall a: nat
          ensures Hits(Write(id, memslots[slot].base + offset', size'), a) <==> Covers(slot, offset, size, a)
        {
          CutCovers(id, slot, offset, size, a);
        }
      }
    }

    /** The cut of a range hits just the addresses the range covers. */
    lemma CutCovers(id: nat, slot: nat, offset: nat, size: nat, a: nat)
      requires SlotsPlaced() && slot in registered
      requires Padding(slotToRegion[slot].offset + offset, grain) <= size
      ensures var (pad, _, n) := Cut(slot, offset, size);
              Hits(Write(id, memslots[slot].base + offset + pad, Bytes(n, grain)), a) <==> Covers(slot, offset, size, a)
    {
      var r := regions[slotToRegion[slot].region];
      CutHits(r, id, slotToRegion[slot].offset + offset, size, grain, a);
      CutIsWhole(slotToRegion[slot].offset + offset, size, grain, 0);
    }

    /** The grains of a cut lie in the slot's region, and pushing them raises the labels of the cut range. */
    lemma CutRaises(id: nat, slot: nat, offset: nat, size: nat)
      requires Valid() && slot in registered && offset + size <= memslots[slot].size
      requires Padding(slotToRegion[slot].offset + offset, grain) <= size
      ensures var (pad, first, n) := Cut(slot, offset, size);
              var r, cells := slotToRegion[slot].region, Pending();
              && r < |writes| && first + n <= |cells[r]| && (size - pad) - Low(size - pad, grain) == Bytes(n, grain)
              && var w := Write(id, memslots[slot].base + offset + pad, Bytes(n, grain));
                 forall a: nat :: LabelAt(regions, cells[r := Pushed(cells[r], id, first, n)], grain, a)
                                  == Raise(LabelOf(a), w, a)
    {
      var (_, first, n) := Cut(slot, offset, size);
      assert Placed(regions, sortedRegions, memslots[slot], slotToRegion[slot]);
      PushFits(regions, sortedRegions, Pending(), grain, memslots[slot], slotToRegion[slot], offset, size, id);
      PushRaises(regions, sortedRegions, Pending(), grain, slotToRegion[slot].region, id, first, n);
    }

    method PushWholeGrains(id: nat, slot: nat, offset: nat, size: nat) returns (offset': nat, size': nat)
      requires Valid() && id < MAX_ID && slot in registered
      requires 0 < size && offset + size <= memslots[slot].size
      requires Padding(slotToRegion[slot].offset + offset, grain) <= size
      modifies writes[slotToRegion[slot].region], dirty
      ensures Formed()
      ensures var (pad, _, n) := old(Cut(slot, offset, size));
              offset' == offset + pad && size' == Bytes(n, grain)
      ensures var w, (_, first, n) := old(writes[slotToRegion[slot].region]), old(Cut(slot, offset, size));
              Valid() <==> KeepsBounds(old(w.min), old(w.max), first, n)
      ensures forall a: nat :: LabelOf(a) == Raise(old(LabelOf(a)), Write(id, memslots[slot].base + offset', size'), a)
    {
      var region := slotToRegion[slot].region;
      var start := slotToRegion[slot].offset + offset;
      var diff := Padding(start, grain);
      var first, n := Whole(start + diff, grain), Whole(size - diff, grain);
      CutRaises(id, slot, offset, size);
      ghost var cut := Cut(slot, offset, size);
      assert cut == (diff, first, n);
      PushRaising(region, id, first, n, Write(id, memslots[slot].base + offset + diff, Bytes(n, grain)));
      offset' := offset + diff;
      size' := (size - diff) - Low(size - diff, grain);
    }

    /** Pushes grains that are known to amount to the write w. */
    method PushRaising(region: nat, id: nat, first: nat, n: nat, ghost w: Write)
      requires Valid() && id < MAX_ID && region < |writes| && first + n <= |writes[region].memory|
      requires forall a: nat ::
                 LabelAt(regions, Pending()[region := Pushed(Pending()[region], id, first, n)], grain, a)
                 == Raise(LabelOf(a), w, a)
      modifies writes[region], dirty
      ensures Formed() && forall a: nat :: LabelOf(a) == Raise(old(LabelOf(a)), w, a)
      ensures Valid() <==> KeepsBounds(old(writes[region].min), old(writes[region].max), first, n)
    {
      ghost var cells := Pending()[region := Pushed(Pending()[region], id, first, n)];
      PushGrains(region, id, first, n);
      assert Pending() == cells;
    }

    method PushGrains(region: nat, id: nat, first: nat, n: nat)
      requires Valid() && id < MAX_ID && region < |writes| && first + n <= |writes[region].memory|
      modifies writes[region], dirty
      ensures Formed()
      ensures Pending() == old(Pending())[region := Pushed(old(Pending())[region], id, first, n)]
      ensures Valid() <==> KeepsBounds(old(writes[region].min), old(writes[region].max), first, n)
    {
      ghost var cells := Pending();
      writes[region].Push(id, first, n);
      assert Pending() == cells[region := Pushed(cells[region], id, first, n)];
      MarkDirty(region);
    }

    method MarkDirty(region: nat)
      requires dirty.Valid() && dirty.min == 0 && region <= dirty.max
      modifies dirty
      ensures dirty.Valid() && dirty.min == 0 && dirty.max == old(dirty.max)
      ensures forall o: nat :: o in dirty.Order() <==> o in old(dirty.Order()) || o == region
    {
      dirty.Insert(region);
    }

    /**
     * Pops one run: a range of addresses that all carried the label of its message, and that carry
     * none afterwards.  Without pending writes there is no run.
     */
    method PopWrite() returns (ok: bool, id: nat, base: nat, size: nat)
      requires Valid()
      modifies writes, dirty
      ensures Valid()
      ensures ok <==> !old(NothingPending())
      ensures !ok ==> NothingPending() && dirty.Order() == [] && forall a: nat :: LabelOf(a) == old(LabelOf(a))
      ensures ok ==> size > 0 && Load(Pending()) < old(Load(Pending()))
      ensures ok ==> forall a: nat :: Hits(Write(id, base, size), a) ==> old(LabelOf(a)) == id + 1
      ensures ok ==> forall a: nat :: LabelOf(a) == if Hits(Write(id, base, size), a) then 0 else old(LabelOf(a))
    {
      var region, start, n;
      ok, region, id, start, n := PopDirty();
      base, size := 0, 0;
      if ok {
        var run := GrainRange(regions[region], id, start, n, grain);
        base, size := run.base, run.size;
        PopTakes(regions, sortedRegions, old(Pending()), grain, region, start, n);
        LoadDrops(old(Pending()), region, start, n);
      }
    }

    /** Goes through the dirty regions until one of them yields a run. */
    method PopDirty() returns (ok: bool, region: nat, id: nat, start: nat, n: nat)
      requires Valid()
      modifies writes, dirty
      ensures Valid()
      ensures ok <==> !old(NothingPending())
      ensures !ok ==> Pending() == old(Pending()) && dirty.Order() == []
      ensures ok ==> region < |writes|
      ensures ok ==> LeftmostRun(old(Pending())[region], start, n) && id == old(Pending())[region][start] - 1
      ensures ok ==> Pending() == old(Pending())[region := Cleared(old(Pending())[region], start, n)]
    {
      region, id, start, n := 0, 0, 0, 0;
      while dirty.size > 0
        invariant Valid() && Pending() == old(Pending())
        decreases dirty.size
      {
        region := dirty.domain[0];
        assert region in dirty.Order();
        assert writes[region] in old(writes);
        ok, id, start, n := PopRegion(region);
        if ok {
          return;
        }
        Undirty(region);
      }
      ok := false;
    }

    method Undirty(region: nat)
      requires Valid() && region in dirty.Order() && AllZero(writes[region].memory)
      modifies dirty
      ensures Valid() && Pending() == old(Pending()) && dirty.size < old(dirty.size)
    {
      ghost var was := dirty.Order();
      dirty.OrderIsDistinct();
      dirty.Erase(region);
      StillTracked(was, region);
      assert Pending() == old(Pending());
    }

    lemma StillTracked(was: seq<nat>, region: nat)
      requires Distinct(was) && region in was
      ensures |Erased(was, region)| < |was|
      ensures forall o: nat :: o in Erased(was, region) <==> o in was && o != region
    {
      ErasedMembers(was, region);
    }

    method PopRegion(region: nat) returns (ok: bool, id: nat, start: nat, n: nat)
      requires Valid() && region < |writes|
      modifies writes[region]
      ensures Valid()
      ensures ok <==> !AllZero(old(Pending())[region])
      ensures !ok ==> Pending() == old(Pending())
      ensures ok ==> LeftmostRun(old(Pending())[region], start, n) && id == old(Pending())[region][start] - 1
      ensures ok ==> Pending() == old(Pending())[region := Cleared(old(Pending())[region], start, n)]
    {
      ghost var cells := Pending();
      ok, id, start, n := writes[region].Pop();
      if ok {
        assert Pending() == cells[region := Cleared(cells[region], start, n)];
      }
      assert !ok ==> Pending() == cells;
    }

    /**
     * Whether message `id` wins the grain at an offset of a slot: its id is above all pending ones.
     * The rest behind the last whole grain is never contended.
     */
    method CanWrite(id: nat, slot: nat, offset: nat) returns (wins: bool)
      requires Valid() && slot in registered && offset < memslots[slot].size
      ensures wins <==> LabelOf(memslots[slot].base + offset) <= id
    {
      var at := slotToRegion[slot];
      var i := Whole(at.offset + offset, grain);
      ghost var cells := Pending();
      assert at.region < |cells| && i <= |cells[at.region]|
             && LabelOf(memslots[slot].base + offset) == if i < |cells[at.region]| then cells[at.region][i] else 0
      by {
        assert Placed(regions, sortedRegions, memslots[slot], at);
        SlotLabel(regions, sortedRegions, cells, grain, memslots[slot], at, offset);
      }
      wins := writes[at.region].Test(id, i);
    }

    method Empty() returns (empty: bool)
      requires Valid()
      ensures empty <==> dirty.Order() == []
      ensures empty ==> NothingPending()
    {
      empty := dirty.size == 0;
    }
  }
}
