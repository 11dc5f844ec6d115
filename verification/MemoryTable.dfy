/**
 * The table of registered memory: local slots are registered with the RDMA layer at once,
 * global ones are put on a dirty list and registered together at the next sync.
 */
module MemoryTables {
  import opened SparseSets
  import opened MemoryRegisters
  import opened CombinedRegisters
  import opened Registrars

  const UNREGISTERED: int := -1

  datatype Memory = Memory(addr: nat, size: nat, verb: int)

  /** `dirty` lists the slots that wait for registration, in iteration order. */
  datatype Table = Table(mem: Combined<Memory>, dirty: seq<nat>, verbs: Combined<MemorySlot>)

  // ---------------------------------------------------------------- conservation

  /** A live slot that does not wait for registration. */
  predicate Clean(t: Table, s: nat) {
    IsLiveSlot(t.mem, s) && s !in t.dirty
  }

  function MemoryOf(t: Table, s: nat): Memory {
    if Decode(s) < |Side(t.mem, KindOf(s)).slots| then Lookup(t.mem, s) else Memory(0, 0, UNREGISTERED)
  }

  function VerbOf(t: Table, s: nat): int {
    MemoryOf(t, s).verb
  }

  /** The memory behind a live slot, as the caller named it. */
  function AreaOf(t: Table, s: nat): Registration {
    Registration(MemoryOf(t, s).addr, MemoryOf(t, s).size)
  }

  /** What the RDMA layer has on record behind the verb id of a slot. */
  ghost predicate Records(t: Table, s: nat, record: MemorySlot) {
    var v := VerbOf(t, s);
    v >= 0 && Decode(v) < |Side(t.verbs, KindOf(v)).slots| && Lookup(t.verbs, v) == record
  }

  ghost predicate Owns(t: Table, s: nat, v: nat) {
    Clean(t, s) && VerbOf(t, s) == v
  }

  /** The slot's verb id names a live registration of the slot's own kind. */
  ghost predicate Registered(t: Table, s: nat) {
    VerbOf(t, s) >= 0 && IsLiveSlot(t.verbs, VerbOf(t, s)) && KindOf(VerbOf(t, s)) == KindOf(s)
  }

  /** The live registrations are exactly the verb ids of the clean slots, one each. */
  ghost predicate Linked(t: Table) {
    && (forall s: nat :: Clean(t, s) ==> Registered(t, s))
    && (forall s: nat, s': nat :: Clean(t, s) && Clean(t, s') && VerbOf(t, s) == VerbOf(t, s') ==> s == s')
    && forall v: nat :: IsLiveSlot(t.verbs, v) ==> exists s: nat :: Owns(t, s, v)
  }

  /** The dirty list names live global slots, each once. */
  ghost predicate DirtyIsGlobal(t: Table) {
    Distinct(t.dirty) && forall s :: s in t.dirty ==> KindOf(s).Global? && IsLiveSlot(t.mem, s)
  }

  /** Registrations and waiting slots together are as many as the slots of the kind. */
  ghost predicate Balanced(t: Table) {
    && Count(t.verbs.local) == Count(t.mem.local)
    && Count(t.verbs.shared) + |t.dirty| == Count(t.mem.shared)
  }

  ghost predicate Conserved(t: Table, capacity: nat) {
    && Sized(t.mem, capacity) && Sized(t.verbs, capacity)
    && DirtyIsGlobal(t) && Balanced(t) && Linked(t)
  }

  lemma LinkGains(t: Table, u: Table, s: nat, v: nat)
    requires Linked(t) && !Clean(t, s) && !IsLiveSlot(t.verbs, v) && KindOf(v) == KindOf(s) && VerbOf(u, s) == v
    requires forall x: nat :: Clean(u, x) <==> Clean(t, x) || x == s
    requires forall x: nat :: Clean(t, x) ==> VerbOf(u, x) == VerbOf(t, x)
    requires forall x: nat :: IsLiveSlot(u.verbs, x) <==> IsLiveSlot(t.verbs, x) || x == v
    ensures Linked(u)
  {
    forall x: nat | Clean(u, x) ensures Registered(u, x) {
      assert x != s ==> Registered(t, x);
    }
    forall w: nat | IsLiveSlot(u.verbs, w) ensures exists x: nat :: Owns(u, x, w) {
      if w == v {
        assert Owns(u, s, w);
      } else {
        var x: nat :| Owns(t, x, w);
        assert Owns(u, x, w);
      }
    }
    forall x: nat | Clean(t, x) ensures VerbOf(t, x) != v {
      assert Registered(t, x);
    }
  }

  lemma LinkLoses(t: Table, u: Table, s: nat)
    requires Linked(t) && Clean(t, s)
    requires forall x: nat :: Clean(u, x) <==> Clean(t, x) && x != s
    requires forall x: nat :: Clean(u, x) ==> VerbOf(u, x) == VerbOf(t, x)
    requires forall x: nat :: IsLiveSlot(u.verbs, x) <==> IsLiveSlot(t.verbs, x) && x != VerbOf(t, s)
    ensures Linked(u)
  {
    forall x: nat | Clean(u, x) ensures Registered(u, x) {
      assert Registered(t, x);
    }
    forall w: nat | IsLiveSlot(u.verbs, w) ensures exists x: nat :: Owns(u, x, w) {
      var x: nat :| Owns(t, x, w);
      assert Owns(u, x, w);
    }
  }

  lemma LinkKeeps(t: Table, u: Table)
    requires Linked(t)
    requires forall x: nat :: Clean(u, x) <==> Clean(t, x)
    requires forall x: nat :: Clean(t, x) ==> VerbOf(u, x) == VerbOf(t, x)
    requires forall x: nat :: IsLiveSlot(u.verbs, x) <==> IsLiveSlot(t.verbs, x)
    ensures Linked(u)
  {
    forall x: nat | Clean(u, x) ensures Registered(u, x) {
      assert Registered(t, x);
    }
    forall w: nat | IsLiveSlot(u.verbs, w) ensures exists x: nat :: Owns(u, x, w) {
      var x: nat :| Owns(t, x, w);
      assert Owns(u, x, w);
    }
  }

  // ---------------------------------------------------------------- the operations on values

  function WithLocal(t: Table, addr: nat, size: nat, n: nat, pid: nat): Table
    requires NextSlot(t.verbs.local) < |t.verbs.local.slots| && NextSlot(t.mem.local) < |t.mem.local.slots|
  {
    var record := MemorySlot(size > 0, OwnOnly(n, pid, Registration(addr, size)));
    Table(AddedReg(t.mem, Local, Memory(addr, size, NewSlot(t.verbs, Local))), t.dirty,
          AddedReg(t.verbs, Local, record))
  }

  function WithGlobal(t: Table, addr: nat, size: nat): Table
    requires NextSlot(t.mem.shared) < |t.mem.shared.slots|
  {
    Table(AddedReg(t.mem, Global, Memory(addr, size, UNREGISTERED)),
          Inserted(t.dirty, NewSlot(t.mem, Global)), t.verbs)
  }

  function Without(t: Table, s: nat): Table
    requires s !in t.dirty ==> VerbOf(t, s) >= 0
  {
    var mem := RemovedReg(t.mem, s);
    if s in t.dirty then Table(mem, Erased(t.dirty, s), t.verbs)
    else Table(mem, t.dirty, RemovedReg(t.verbs, VerbOf(t, s)))
  }

  function Grown(t: Table, size: nat, n: nat, trimmed: bool): Table
    requires t.mem.local.minNew <= |t.mem.local.slots| && t.mem.shared.minNew <= |t.mem.shared.slots|
    requires t.verbs.local.minNew <= |t.verbs.local.slots| && t.verbs.shared.minNew <= |t.verbs.shared.slots|
  {
    Table(ReservedBoth(t.mem, size, Memory(0, 0, UNREGISTERED), trimmed), t.dirty,
          ReservedBoth(t.verbs, size, MemorySlot(false, Nowhere(n)), trimmed))
  }

  /** Registers the first dirty slot; `gathered` is what the all-gather of the registrations returned. */
  function FirstRegistered(t: Table, gathered: seq<Registration>): Table
    requires t.dirty != [] && NextSlot(t.verbs.shared) < |t.verbs.shared.slots|
    requires Decode(t.dirty[0]) < |Side(t.mem, KindOf(t.dirty[0])).slots|
  {
    var s := t.dirty[0];
    var memory := Lookup(t.mem, s);
    Table(UpdatedReg(t.mem, s, memory.(verb := NewSlot(t.verbs, Global))), t.dirty[1..],
          AddedReg(t.verbs, Global, MemorySlot(memory.size > 0, gathered)))
  }

  // ---------------------------------------------------------------- every operation conserves registrations

  lemma AddLocalConserves(t: Table, addr: nat, size: nat, n: nat, pid: nat, capacity: nat)
    requires Conserved(t, capacity) && Count(t.mem.local) < capacity
    ensures NextSlot(t.verbs.local) < |t.verbs.local.slots| && NextSlot(t.mem.local) < |t.mem.local.slots|
    ensures Conserved(WithLocal(t, addr, size, n, pid), capacity)
    ensures var u, s := WithLocal(t, addr, size, n, pid), NewSlot(t.mem, Local);
            && IsLiveSlot(u.mem, s) && !IsLiveSlot(t.mem, s) && AreaOf(u, s) == Registration(addr, size)
            && Records(u, s, MemorySlot(size > 0, OwnOnly(n, pid, Registration(addr, size))))
  {
    var record, v := MemorySlot(size > 0, OwnOnly(n, pid, Registration(addr, size))), NewSlot(t.verbs, Local);
    AddGains(t.verbs, Local, record, capacity);
    AddGains(t.mem, Local, Memory(addr, size, v), capacity);
    var u, s := WithLocal(t, addr, size, n, pid), NewSlot(t.mem, Local);
    forall x: nat | Clean(t, x) ensures VerbOf(u, x) == VerbOf(t, x) {
      assert Same(t.mem, u.mem, x);
    }
    assert s !in t.dirty;
    LinkGains(t, u, s, v);
  }

  lemma AddGlobalConserves(t: Table, addr: nat, size: nat, capacity: nat)
    requires Conserved(t, capacity) && Count(t.mem.shared) < capacity
    ensures NextSlot(t.mem.shared) < |t.mem.shared.slots|
    ensures Conserved(WithGlobal(t, addr, size), capacity)
    ensures WithGlobal(t, addr, size).dirty == t.dirty + [NewSlot(t.mem, Global)]
    ensures var u, s := WithGlobal(t, addr, size), NewSlot(t.mem, Global);
            IsLiveSlot(u.mem, s) && !IsLiveSlot(t.mem, s) && MemoryOf(u, s) == Memory(addr, size, UNREGISTERED)
  {
    AddGains(t.mem, Global, Memory(addr, size, UNREGISTERED), capacity);
    var u, s := WithGlobal(t, addr, size), NewSlot(t.mem, Global);
    assert s !in t.dirty;
    forall x: nat | Clean(t, x) ensures VerbOf(u, x) == VerbOf(t, x) {
      assert Same(t.mem, u.mem, x);
    }
    LinkKeeps(t, u);
  }

  lemma RemoveDirtyConserves(t: Table, s: nat, capacity: nat)
    requires Conserved(t, capacity) && s in t.dirty
    ensures Conserved(Without(t, s), capacity)
  {
    RemoveLoses(t.mem, s, capacity);
    var u := Without(t, s);
    EraseElements(t.dirty, s);
    ErasedMembers(t.dirty, s);
    forall x: nat | Clean(t, x) ensures VerbOf(u, x) == VerbOf(t, x) {
      assert Same(t.mem, u.mem, x);
    }
    LinkKeeps(t, u);
  }

  lemma RemoveCleanConserves(t: Table, s: nat, capacity: nat)
    requires Conserved(t, capacity) && Clean(t, s)
    ensures VerbOf(t, s) >= 0 && Conserved(Without(t, s), capacity)
  {
    assert Registered(t, s);
    RemoveLoses(t.mem, s, capacity);
    RemoveLoses(t.verbs, VerbOf(t, s), capacity);
    var u := Without(t, s);
    forall x: nat | Clean(u, x) ensures VerbOf(u, x) == VerbOf(t, x) {
      assert Same(t.mem, u.mem, x);
    }
    LinkLoses(t, u, s);
  }

  lemma GrowConserves(t: Table, size: nat, n: nat, trimmed: bool, capacity: nat)
    requires Conserved(t, capacity) && capacity <= size
    ensures Conserved(Grown(t, size, n, trimmed), size)
  {
    ReserveKeepsRecords(t.mem, size, Memory(0, 0, UNREGISTERED), trimmed);
    ReserveKeepsRecords(t.verbs, size, MemorySlot(false, Nowhere(n)), trimmed);
    var u := Grown(t, size, n, trimmed);
    forall x: nat | Clean(t, x) ensures VerbOf(u, x) == VerbOf(t, x) {
      assert Same(t.mem, u.mem, x);
    }
    LinkKeeps(t, u);
  }

  ghost predicate SameMemoryAt(t: Table, u: Table, x: nat) {
    && (IsLiveSlot(u.mem, x) <==> IsLiveSlot(t.mem, x))
    && (IsLiveSlot(t.mem, x) ==>
          MemoryOf(u, x).addr == MemoryOf(t, x).addr && MemoryOf(u, x).size == MemoryOf(t, x).size)
  }

  /** The same slots are live, with the same addresses and sizes. */
  ghost predicate SameMemory(t: Table, u: Table) {
    forall x: nat :: SameMemoryAt(t, u, x)
  }

  /** Registering one dirty slot changes no slot's address or size. */
  lemma RegisterConserves(t: Table, gathered: seq<Registration>, capacity: nat)
    requires Conserved(t, capacity) && t.dirty != []
    ensures NextSlot(t.verbs.shared) < |t.verbs.shared.slots| && IsLiveSlot(t.mem, t.dirty[0])
    ensures Decode(t.dirty[0]) < |Side(t.mem, KindOf(t.dirty[0])).slots|
    ensures var u := FirstRegistered(t, gathered);
            && Conserved(u, capacity) && SameMemory(t, u)
            && Records(u, t.dirty[0], MemorySlot(AreaOf(t, t.dirty[0]).size > 0, gathered))
  {
    var s, v := t.dirty[0], NewSlot(t.verbs, Global);
    LiveSize(t.mem.shared);
    assert IsLiveSlot(t.mem, s);
    var memory := Lookup(t.mem, s);
    AddGains(t.verbs, Global, MemorySlot(memory.size > 0, gathered), capacity);
    UpdateChangesOne(t.mem, s, memory.(verb := v), capacity);
    var u := FirstRegistered(t, gathered);
    assert t.dirty == [s] + u.dirty;
    assert forall x :: x in t.dirty <==> x == s || x in u.dirty;
    assert s !in u.dirty;
    forall x: nat | IsLiveSlot(t.mem, x) && x != s ensures MemoryOf(u, x) == MemoryOf(t, x) {
      assert Same(t.mem, u.mem, x);
    }
    LinkGains(t, u, s, v);
  }

  /** The table after the first `k` dirty slots are registered; the rest of the list still waits. */
  ghost function PartlySynced(t: Table, answers: seq<seq<Registration>>, k: nat, capacity: nat): (u: Table)
    requires Conserved(t, capacity) && k <= |t.dirty| && k <= |answers|
    ensures Conserved(u, capacity) && u.dirty == t.dirty[k..]
  {
    if k == 0 then t
    else
      var before := PartlySynced(t, answers, k - 1, capacity);
      RegisterConserves(before, answers[k - 1], capacity);
      FirstRegistered(before, answers[k - 1])
  }

  lemma {:induction false} SyncKeepsMemory(t: Table, answers: seq<seq<Registration>>, k: nat, capacity: nat)
    requires Conserved(t, capacity) && k <= |t.dirty| && k <= |answers|
    ensures SameMemory(t, PartlySynced(t, answers, k, capacity))
  {
    if k > 0 {
      SyncKeepsMemory(t, answers, k - 1, capacity);
      var before := PartlySynced(t, answers, k - 1, capacity);
      RegisterConserves(before, answers[k - 1], capacity);
      var u := FirstRegistered(before, answers[k - 1]);
      forall x: nat ensures SameMemoryAt(t, u, x) {
        assert SameMemoryAt(t, before, x) && SameMemoryAt(before, u, x);
      }
    }
  }

  /** A sync registers every live slot and moves none: address and size stay what they were. */
  lemma SyncRegistersAll(t: Table, answers: seq<seq<Registration>>, capacity: nat, s: nat)
    requires Conserved(t, capacity) && |answers| == |t.dirty| && IsLiveSlot(t.mem, s)
    ensures var u := PartlySynced(t, answers, |answers|, capacity);
            && u.dirty == [] && Clean(u, s) && Registered(u, s)
            && MemoryOf(u, s).addr == MemoryOf(t, s).addr && MemoryOf(u, s).size == MemoryOf(t, s).size
  {
    SyncKeepsMemory(t, answers, |answers|, capacity);
    assert SameMemoryAt(t, PartlySynced(t, answers, |answers|, capacity), s);
  }

  /** What a process has contributed for the first dirty slots: the address and size of each. */
  ghost predicate Contributed(t: Table, sent: seq<Registration>) {
    |sent| <= |t.dirty| && forall k :: 0 <= k < |sent| ==> sent[k] == AreaOf(t, t.dirty[k])
  }

  lemma ContributedNext(t: Table, sent: seq<Registration>, own: Registration)
    requires Contributed(t, sent) && |sent| < |t.dirty| && own == AreaOf(t, t.dirty[|sent|])
    ensures Contributed(t, sent + [own])
  {
  }

  /** Registering other slots has not moved a slot that waits. */
  lemma WaitingUnmoved(t: Table, answers: seq<seq<Registration>>, k: nat, capacity: nat)
    requires Conserved(t, capacity) && k < |answers| == |t.dirty|
    ensures IsLiveSlot(t.mem, t.dirty[k])
    ensures AreaOf(PartlySynced(t, answers, k, capacity), t.dirty[k]) == AreaOf(t, t.dirty[k])
  {
    SyncKeepsMemory(t, answers, k, capacity);
    assert SameMemoryAt(t, PartlySynced(t, answers, k, capacity), t.dirty[k]);
  }

  // ---------------------------------------------------------------- the running code

  class MemoryTable {
    const memreg: CombinedMemoryRegister<Memory>
    const added: SparseSet
    const registrar: Registrar
    var capacity: nat

    ghost function State(): Table
      reads memreg.local, memreg.shared, added, registrar.memreg.local, registrar.memreg.shared
      requires added.size <= |added.domain|
    {
      Table(memreg.State(), added.Order(), registrar.memreg.State())
    }

    /** The dirty list covers every slot number there can be. */
    ghost predicate Valid()
      reads this, memreg.local, memreg.shared, added, registrar.memreg.local, registrar.memreg.shared
    {
      && memreg.Valid() && registrar.memreg.Valid() && added.Valid() && added.min == 0
      && 2 * capacity <= added.max + 1 && added.max <= 2 * capacity + 1
      && Conserved(State(), capacity)
    }

    constructor (n: nat, id: nat)
      ensures Valid() && State() == Table(NoSlots(), [], NoSlots()) && capacity == 0
      ensures registrar.nprocs == n && registrar.pid == id
      ensures fresh(memreg.local) && fresh(memreg.shared) && fresh(added)
      ensures fresh(registrar.memreg.local) && fresh(registrar.memreg.shared)
    {
      memreg := new CombinedMemoryRegister();
      added := new SparseSet(0, 0);
      registrar := new Registrar(n, id);
      capacity := 0;
    }

    method AddLocal(addr: nat, size: nat) returns (slot: nat)
      requires Valid() && Count(memreg.local.State()) < capacity
      modifies memreg.local, registrar.memreg.local
      ensures Valid() && slot == NewSlot(old(State()).mem, Local)
      ensures NextSlot(old(State()).verbs.local) < |old(State()).verbs.local.slots|
      ensures NextSlot(old(State()).mem.local) < |old(State()).mem.local.slots|
      ensures State() == WithLocal(old(State()), addr, size, registrar.nprocs, registrar.pid)
      ensures IsLiveSlot(State().mem, slot) && AreaOf(State(), slot) == Registration(addr, size)
      ensures Records(State(), slot,
                      MemorySlot(size > 0, OwnOnly(registrar.nprocs, registrar.pid, Registration(addr, size))))
    {
      AddLocalConserves(State(), addr, size, registrar.nprocs, registrar.pid, capacity);
      var verb := registrar.RegLocal(addr, size);
      slot := memreg.AddLocalReg(Memory(addr, size, verb));
    }

    method AddGlobal(addr: nat, size: nat) returns (slot: nat)
      requires Valid() && Count(memreg.shared.State()) < capacity
      modifies memreg.shared, added
      ensures Valid() && slot == NewSlot(old(State()).mem, Global)
      ensures NextSlot(old(State()).mem.shared) < |old(State()).mem.shared.slots|
      ensures State() == WithGlobal(old(State()), addr, size)
      ensures IsLiveSlot(State().mem, slot) && MemoryOf(State(), slot) == Memory(addr, size, UNREGISTERED)
      ensures State().dirty == old(State()).dirty + [slot]
    {
      AddGlobalConserves(State(), addr, size, capacity);
      slot := memreg.AddGlobalReg(Memory(addr, size, UNREGISTERED));
      SlotsAreUnique(Global, NextSlot(old(memreg.shared.State())), slot);
      added.Insert(slot);
    }

    method Remove(slot: nat)
      requires Valid() && IsLiveSlot(memreg.State(), slot)
      modifies memreg.local, memreg.shared, added, registrar.memreg.local, registrar.memreg.shared
      ensures Valid() && capacity == old(capacity)
      ensures Clean(old(State()), slot) ==> VerbOf(old(State()), slot) >= 0
      ensures State() == Without(old(State()), slot)
    {
      if added.Contains(slot) {
        RemoveDirtyConserves(State(), slot, capacity);
        added.Erase(slot);
      } else {
        RemoveCleanConserves(State(), slot, capacity);
        Unregister(slot);
      }
      memreg.RemoveReg(slot);
    }

    /** Ends the registration of a slot that does not wait for one. */
    method Unregister(slot: nat)
      requires Valid() && Clean(State(), slot)
      modifies registrar.memreg.local, registrar.memreg.shared
      ensures registrar.memreg.Valid() && VerbOf(old(State()), slot) >= 0
      ensures registrar.memreg.State() == RemovedReg(old(registrar.memreg.State()), VerbOf(old(State()), slot))
    {
      assert Registered(State(), slot);
      var record := memreg.LookupReg(slot);
      registrar.Dereg(record.verb);
    }

    /** The queue only ever grows the table. */
    method Reserve(size: nat, trimmed: bool)
      requires Valid() && capacity < size
      modifies this, memreg.local, memreg.shared, added, registrar.memreg.local, registrar.memreg.shared
      ensures Valid() && capacity == size
      ensures State() == Grown(old(State()), size, registrar.nprocs, trimmed)
    {
      GrowConserves(State(), size, registrar.nprocs, trimmed, capacity);
      memreg.Reserve(size, Memory(0, 0, UNREGISTERED), trimmed);
      added.Extend(memreg.SlotRange());
      registrar.ResizeMemreg(size, trimmed);
      capacity := size;
    }

    /** The registers hold table t with its first `k` dirty slots registered. */
    ghost predicate AtStep(t: Table, answers: seq<seq<Registration>>, k: nat)
      reads this, memreg.local, memreg.shared, registrar.memreg.local, registrar.memreg.shared
    {
      && Conserved(t, capacity) && k <= |answers| == |t.dirty| && memreg.Valid() && registrar.memreg.Valid()
      && Table(memreg.State(), t.dirty[k..], registrar.memreg.State()) == PartlySynced(t, answers, k, capacity)
    }

    method RegisterSlot(slot: nat, ghost t: Table, answers: seq<seq<Registration>>, k: nat)
      returns (own: Registration)
      requires AtStep(t, answers, k) && k < |answers| && slot == t.dirty[k]
      modifies memreg.local, memreg.shared, registrar.memreg.shared
      ensures AtStep(t, answers, k + 1) && own == AreaOf(t, slot)
    {
      RegisterConserves(PartlySynced(t, answers, k, capacity), answers[k], capacity);
      var record := memreg.LookupReg(slot);
      assert Registration(record.addr, record.size) == AreaOf(t, slot) by {
        WaitingUnmoved(t, answers, k, capacity);
      }
      var verb;
      verb, own := registrar.RegGlobal(record.addr, record.size, answers[k]);
      memreg.Update(slot, record.(verb := verb));
      assert t.dirty[k..][1..] == t.dirty[k + 1..];
    }

    /**
     * `answers` are the results of the all-gathers, one for each dirty slot in order, and `sent` what
     * this process contributes to them: address and size of the slot.
     */
    method RegisterAll(answers: seq<seq<Registration>>) returns (sent: seq<Registration>)
      requires Valid() && |answers| == added.size
      modifies memreg.local, memreg.shared, registrar.memreg.shared
      ensures AtStep(old(State()), answers, |answers|)
      ensures |sent| == |answers| && Contributed(old(State()), sent)
    {
      ghost var t := State();
      sent := [];
      while |sent| < added.size
        invariant |sent| <= added.size && t.dirty == added.Order() && AtStep(t, answers, |sent|) && Contributed(t, sent)
        decreases added.size - |sent|
      {
        sent := RegisterNext(added.domain[|sent|], t, answers, sent);
      }
    }

    method RegisterNext(slot: nat, ghost t: Table, answers: seq<seq<Registration>>, sent: seq<Registration>)
      returns (sent': seq<Registration>)
      requires AtStep(t, answers, |sent|) && |sent| < |answers| && slot == t.dirty[|sent|] && Contributed(t, sent)
      modifies memreg.local, memreg.shared, registrar.memreg.shared
      ensures |sent'| == |sent| + 1 && AtStep(t, answers, |sent'|) && Contributed(t, sent')
    {
      var own := RegisterSlot(slot, t, answers, |sent|);
      ContributedNext(t, sent, own);
      sent' := sent + [own];
    }

    method Sync(answers: seq<seq<Registration>>) returns (sent: seq<Registration>)
      requires Valid() && |answers| == added.size
      modifies memreg.local, memreg.shared, added, registrar.memreg.shared
      ensures Valid() && added.size == 0
      ensures State() == PartlySynced(old(State()), answers, |answers|, capacity)
      ensures |sent| == |answers| && Contributed(old(State()), sent)
    {
      sent := [];
      if added.size > 0 {
        sent := RegisterAll(answers);
        added.Clear();
      }
    }
  }
}
