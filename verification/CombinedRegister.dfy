/** Local and global slots side by side: local slots are odd, global slots are even. */
module CombinedRegisters {
  import opened Arithmetic
  import opened MemoryRegisters

  datatype Kind = Local | Global

  datatype Combined<R> = Combined(local: Register<R>, shared: Register<R>)

  function NoSlots<R>(): Combined<R> {
    Combined(Empty(), Empty())
  }

  function KindOf(slot: nat): Kind {
    if slot % 2 == 1 then Local else Global
  }

  function Encode(kind: Kind, i: nat): nat {
    if kind.Local? then 2 * i + 1 else 2 * i
  }

  function Decode(slot: nat): nat {
    if KindOf(slot).Local? then (slot - 1) / 2 else slot / 2
  }

  /** Slot numbers of the two kinds never meet, and each names one entry of its register. */
  lemma SlotsAreUnique(kind: Kind, i: nat, slot: nat)
    ensures Encode(kind, i) == slot <==> KindOf(slot) == kind && Decode(slot) == i
    ensures Encode(kind, i) % 2 == 1 <==> kind.Local?
  {
    if kind.Local? {
      assert (2 * i + 1) % 2 == 1 && (2 * i + 1 - 1) / 2 == i;
    } else {
      assert (2 * i) % 2 == 0 && (2 * i) / 2 == i;
    }
  }

  function Side<R>(c: Combined<R>, kind: Kind): Register<R> {
    if kind.Local? then c.local else c.shared
  }

  function WithSide<R>(c: Combined<R>, kind: Kind, r: Register<R>): Combined<R> {
    if kind.Local? then c.(local := r) else c.(shared := r)
  }

  predicate IsLiveSlot<R>(c: Combined<R>, slot: nat) {
    IsLive(Side(c, KindOf(slot)), Decode(slot))
  }

  /** Both registers are sound and have the same number of slots. */
  ghost predicate Sized<R>(c: Combined<R>, capacity: nat) {
    Sound(c.local) && Sound(c.shared) && |c.local.slots| == |c.shared.slots| == capacity
  }

  function Lookup<R>(c: Combined<R>, slot: nat): R
    requires Decode(slot) < |Side(c, KindOf(slot)).slots|
  {
    Side(c, KindOf(slot)).slots[Decode(slot)]
  }

  function NewSlot<R>(c: Combined<R>, kind: Kind): nat {
    Encode(kind, NextSlot(Side(c, kind)))
  }

  function AddedReg<R>(c: Combined<R>, kind: Kind, record: R): Combined<R>
    requires NextSlot(Side(c, kind)) < |Side(c, kind).slots|
  {
    WithSide(c, kind, Added(Side(c, kind), record))
  }

  function RemovedReg<R>(c: Combined<R>, slot: nat): Combined<R> {
    WithSide(c, KindOf(slot), Removed(Side(c, KindOf(slot)), Decode(slot)))
  }

  function UpdatedReg<R>(c: Combined<R>, slot: nat, record: R): Combined<R>
    requires Decode(slot) < |Side(c, KindOf(slot)).slots|
  {
    var r := Side(c, KindOf(slot));
    WithSide(c, KindOf(slot), r.(slots := r.slots[Decode(slot) := record]))
  }

  function ReservedBoth<R>(c: Combined<R>, size: nat, filler: R, trimmed: bool): Combined<R>
    requires c.local.minNew <= |c.local.slots| && c.shared.minNew <= |c.shared.slots|
  {
    Combined(Reserved(c.local, size, filler, trimmed), Reserved(c.shared, size, filler, trimmed))
  }

  function Range<R>(c: Combined<R>): nat {
    Max(2 * |c.shared.slots|, 2 * |c.local.slots| + 1)
  }

  lemma LiveInRange<R>(c: Combined<R>, slot: nat)
    requires Sound(c.local) && Sound(c.shared) && IsLiveSlot(c, slot)
    ensures slot < Range(c) && Decode(slot) < |Side(c, KindOf(slot)).slots|
  {
    SlotsAreUnique(KindOf(slot), Decode(slot), slot);
  }

  /** The record of a live slot of both is the same. */
  ghost predicate Same<R>(c: Combined<R>, d: Combined<R>, slot: nat) {
    var i, k := Decode(slot), KindOf(slot);
    i < |Side(c, k).slots| && i < |Side(d, k).slots| && Lookup(c, slot) == Lookup(d, slot)
  }

  /** After an addition: one slot of the kind is new, and the other live slots keep their records. */
  ghost predicate Gains<R>(c: Combined<R>, d: Combined<R>, slot: nat, record: R) {
    && !IsLiveSlot(c, slot)
    && (forall x: nat :: IsLiveSlot(d, x) <==> IsLiveSlot(c, x) || x == slot)
    && (forall x: nat :: IsLiveSlot(c, x) ==> Same(c, d, x))
    && Decode(slot) < |Side(d, KindOf(slot)).slots| && Lookup(d, slot) == record
  }

  lemma AddGains<R>(c: Combined<R>, kind: Kind, record: R, capacity: nat)
    requires Sized(c, capacity) && Count(Side(c, kind)) < capacity
    ensures NextSlot(Side(c, kind)) < |Side(c, kind).slots|
    ensures var d := AddedReg(c, kind, record);
            && Sized(d, capacity) && KindOf(NewSlot(c, kind)) == kind && Gains(c, d, NewSlot(c, kind), record)
            && Count(Side(d, kind)) == Count(Side(c, kind)) + 1
  {
    AddTakesSlot(Side(c, kind), record);
    var slot, d := NewSlot(c, kind), AddedReg(c, kind, record);
    SlotsAreUnique(kind, NextSlot(Side(c, kind)), slot);
    forall x: nat ensures IsLiveSlot(d, x) <==> IsLiveSlot(c, x) || x == slot {
      SlotsAreUnique(kind, NextSlot(Side(c, kind)), x);
    }
  }

  ghost predicate Loses<R>(c: Combined<R>, d: Combined<R>, slot: nat) {
    && (forall x: nat :: IsLiveSlot(d, x) <==> IsLiveSlot(c, x) && x != slot)
    && forall x: nat :: IsLiveSlot(d, x) ==> Same(c, d, x)
  }

  lemma RemoveLoses<R>(c: Combined<R>, slot: nat, capacity: nat)
    requires Sized(c, capacity) && IsLiveSlot(c, slot)
    ensures var d, k := RemovedReg(c, slot), KindOf(slot);
            && Sized(d, capacity) && Loses(c, d, slot)
            && Count(Side(d, k)) == Count(Side(c, k)) - 1
  {
    RemoveFreesSlot(Side(c, KindOf(slot)), Decode(slot));
    var d := RemovedReg(c, slot);
    forall x: nat ensures IsLiveSlot(d, x) <==> IsLiveSlot(c, x) && x != slot {
      SlotsAreUnique(KindOf(slot), Decode(slot), x);
      SlotsAreUnique(KindOf(slot), Decode(slot), slot);
    }
  }

  lemma UpdateChangesOne<R>(c: Combined<R>, slot: nat, record: R, capacity: nat)
    requires Sized(c, capacity) && IsLiveSlot(c, slot)
    ensures Decode(slot) < |Side(c, KindOf(slot)).slots|
    ensures var d := UpdatedReg(c, slot, record);
            && Sized(d, capacity) && Lookup(d, slot) == record
            && (forall x: nat :: IsLiveSlot(d, x) <==> IsLiveSlot(c, x))
            && forall x: nat :: IsLiveSlot(c, x) && x != slot ==> Same(c, d, x)
  {
    var d := UpdatedReg(c, slot, record);
    forall x: nat | IsLiveSlot(c, x) && x != slot ensures Same(c, d, x) {
      SlotsAreUnique(KindOf(slot), Decode(slot), x);
      SlotsAreUnique(KindOf(slot), Decode(slot), slot);
    }
  }

  lemma ReserveKeepsRecords<R>(c: Combined<R>, size: nat, filler: R, trimmed: bool)
    requires Sound(c.local) && Sound(c.shared)
    ensures var d := ReservedBoth(c, size, filler, trimmed);
            && Sound(d.local) && Sound(d.shared)
            && |d.local.slots| == Max(size, c.local.minNew) && |d.shared.slots| == Max(size, c.shared.minNew)
            && (forall x: nat :: IsLiveSlot(d, x) <==> IsLiveSlot(c, x))
            && forall x: nat :: IsLiveSlot(c, x) ==> Same(c, d, x)
  {
    ReserveKeepsSlots(c.local, size, filler, trimmed);
    ReserveKeepsSlots(c.shared, size, filler, trimmed);
  }

  class CombinedMemoryRegister<R> {
    const local: MemoryRegister<R>
    const shared: MemoryRegister<R>

    ghost function State(): Combined<R>
      reads local, shared
    {
      Combined(local.State(), shared.State())
    }

    ghost predicate Valid()
      reads local, shared
    {
      local != shared && local.Valid() && shared.Valid()
    }

    constructor ()
      ensures Valid() && State() == NoSlots() && fresh(local) && fresh(shared)
    {
      local := new MemoryRegister();
      shared := new MemoryRegister();
    }

    method AddLocalReg(record: R) returns (slot: nat)
      requires Valid() && Count(local.State()) < |local.slots|
      modifies local
      ensures Valid() && NextSlot(old(local.State())) < |old(local.slots)|
      ensures slot == NewSlot(old(State()), Local) && State() == AddedReg(old(State()), Local, record)
      ensures slot % 2 == 1 && shared.State() == old(shared.State())
    {
      var i := local.Add(record);
      slot := 2 * i + 1;
    }

    method AddGlobalReg(record: R) returns (slot: nat)
      requires Valid() && Count(shared.State()) < |shared.slots|
      modifies shared
      ensures Valid() && NextSlot(old(shared.State())) < |old(shared.slots)|
      ensures slot == NewSlot(old(State()), Global) && State() == AddedReg(old(State()), Global, record)
      ensures slot % 2 == 0 && local.State() == old(local.State())
    {
      var i := shared.Add(record);
      slot := 2 * i;
    }

    method RemoveReg(slot: nat)
      requires Valid() && IsLiveSlot(State(), slot)
      modifies local, shared
      ensures Valid() && State() == RemovedReg(old(State()), slot)
    {
      if slot % 2 == 1 {
        local.Remove((slot - 1) / 2);
      } else {
        shared.Remove(slot / 2);
      }
    }

    method LookupReg(slot: nat) returns (record: R)
      requires Valid() && IsLiveSlot(State(), slot)
      ensures Decode(slot) < |Side(State(), KindOf(slot)).slots| && record == Lookup(State(), slot)
    {
      if slot % 2 == 1 {
        record := local.slots[(slot - 1) / 2];
      } else {
        record := shared.slots[slot / 2];
      }
    }

    /** Assigns to the record of a slot; `update` in memreg.hpp lends its callers the record itself. */
    method Update(slot: nat, record: R)
      requires Valid() && IsLiveSlot(State(), slot)
      modifies local, shared
      ensures Valid() && Decode(slot) < |old(Side(State(), KindOf(slot)).slots)|
      ensures State() == UpdatedReg(old(State()), slot, record)
    {
      if slot % 2 == 1 {
        local.slots := local.slots[(slot - 1) / 2 := record];
      } else {
        shared.slots := shared.slots[slot / 2 := record];
      }
    }

    /** One past the largest slot number there can be. */
    function SlotRange(): (range: nat)
      reads local, shared
      ensures range == Range(State())
    {
      Max(2 * |shared.slots|, 2 * |local.slots| + 1)
    }

    method Reserve(size: nat, filler: R, trimmed: bool)
      requires Valid()
      modifies local, shared
      ensures Valid() && State() == ReservedBoth(old(State()), size, filler, trimmed)
    {
      shared.Reserve(size, filler, trimmed);
      local.Reserve(size, filler, trimmed);
    }
  }
}
