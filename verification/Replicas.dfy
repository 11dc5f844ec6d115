/**
 * Address translation across processes.  All processes add, remove and sync global slots in the
 * same order; local registrations and growth happen as each of them likes.
 */
module Replicas {
  import opened SparseSets
  import opened MemoryRegisters
  import opened CombinedRegisters
  import opened Registrars
  import opened MemoryTables

  datatype Call =
    | AddLocal(addr: nat, size: nat)
    | AddGlobal(addr: nat, size: nat)
    | Deregister(slot: nat)
    | Grow(size: nat, trimmed: bool)
    | Sync(answers: seq<seq<Registration>>)

  /**
   * One process: its table, the slots its global additions returned, and for each collective
   * registration so far the slot, what this process contributed, and what it got back.  `passed` are
   * the address and the size that were passed to the call which returned each slot, as long as the
   * slot has not been deregistered.
   */
  datatype Replica = Replica(table: Table, capacity: nat, slots: seq<nat>, passed: map<nat, Registration>,
                             order: seq<nat>, sent: seq<Registration>, got: seq<seq<Registration>>)

  function Start(): Replica {
    Replica(Table(NoSlots(), [], NoSlots()), 0, [], map[], [], [], [])
  }

  ghost predicate Allowed(r: Replica, c: Call) {
    && Conserved(r.table, r.capacity)
    && match c
       case AddLocal(_, _) => Count(r.table.mem.local) < r.capacity
       case AddGlobal(_, _) => Count(r.table.mem.shared) < r.capacity
       case Deregister(slot) => IsLiveSlot(r.table.mem, slot)
       case Grow(size, _) => r.capacity < size
       case Sync(answers) => |answers| == |r.table.dirty|
  }

  /** The next collective registration; `gathered` is what its all-gather returned. */
  ghost function RegisterFirst(r: Replica, gathered: seq<Registration>): Replica
    requires Conserved(r.table, r.capacity) && r.table.dirty != []
  {
    var s := r.table.dirty[0];
    RegisterConserves(r.table, gathered, r.capacity);
    Replica(FirstRegistered(r.table, gathered), r.capacity, r.slots, r.passed, r.order + [s],
            r.sent + [AreaOf(r.table, s)], r.got + [gathered])
  }

  ghost function SyncedTo(r: Replica, answers: seq<seq<Registration>>, k: nat): (u: Replica)
    requires Conserved(r.table, r.capacity) && k <= |answers| == |r.table.dirty|
    ensures u.table == PartlySynced(r.table, answers, k, r.capacity) && u.capacity == r.capacity
  {
    if k == 0 then r else RegisterFirst(SyncedTo(r, answers, k - 1), answers[k - 1])
  }

  ghost function Perform(r: Replica, c: Call, n: nat, pid: nat): (u: Replica)
    requires Allowed(r, c)
    ensures Conserved(u.table, u.capacity)
  {
    match c
    case AddLocal(addr, size) =>
      AddLocalConserves(r.table, addr, size, n, pid, r.capacity);
      r.(table := WithLocal(r.table, addr, size, n, pid),
         passed := r.passed[NewSlot(r.table.mem, Local) := Registration(addr, size)])
    case AddGlobal(addr, size) =>
      AddGlobalConserves(r.table, addr, size, r.capacity);
      r.(table := WithGlobal(r.table, addr, size), slots := r.slots + [NextSlot(r.table.mem.shared)],
         passed := r.passed[NewSlot(r.table.mem, Global) := Registration(addr, size)])
    case Deregister(s) =>
      if s in r.table.dirty then
        RemoveDirtyConserves(r.table, s, r.capacity);
        r.(table := Without(r.table, s), passed := r.passed - {s})
      else
        RemoveCleanConserves(r.table, s, r.capacity);
        r.(table := Without(r.table, s), passed := r.passed - {s})
    case Grow(size, trimmed) =>
      GrowConserves(r.table, size, n, trimmed, r.capacity);
      r.(table := Grown(r.table, size, n, trimmed), capacity := size)
    case Sync(answers) => SyncedTo(r, answers, |answers|)
  }

  ghost predicate Runs(calls: seq<Call>, n: nat, pid: nat)
    decreases |calls|, 0
  {
    calls == [] || (Runs(calls[..|calls| - 1], n, pid)
                    && Allowed(After(calls[..|calls| - 1], n, pid), calls[|calls| - 1]))
  }

  ghost function After(calls: seq<Call>, n: nat, pid: nat): Replica
    requires Runs(calls, n, pid)
    decreases |calls|, 1
  {
    if calls == [] then Start() else Perform(After(calls[..|calls| - 1], n, pid), calls[|calls| - 1], n, pid)
  }

  // ---------------------------------------------------------------- what processes have in common

  datatype SharedCall = Add | Drop(slot: nat) | Synchronise

  function SharedPart(c: Call): seq<SharedCall> {
    match c
    case AddGlobal(_, _) => [Add]
    case Deregister(slot) => if KindOf(slot).Global? then [Drop(slot)] else []
    case Sync(_) => [Synchronise]
    case _ => []
  }

  function Shared(calls: seq<Call>): seq<SharedCall> {
    if calls == [] then [] else Shared(calls[..|calls| - 1]) + SharedPart(calls[|calls| - 1])
  }

  /**
   * What the shared calls alone determine: the global slots with their verb ids, the dirty list,
   * the verb ids with the number of the collective that made them, and the order of collectives.
   */
  datatype Shape = Shape(mem: Book<int>, dirty: seq<nat>, verbs: Book<nat>, order: seq<nat>)

  function NoShape(): Shape {
    Shape(Book([], 0, map[], []), [], Book([], 0, map[], []), [])
  }

  function NextOf<R>(b: Book<R>): nat {
    if b.free == [] then b.minNew else b.free[|b.free| - 1]
  }

  function ShapeAdd(h: Shape): Shape {
    h.(mem := Entered(h.mem, AddRecord(UNREGISTERED)), dirty := Inserted(h.dirty, 2 * NextOf(h.mem)))
  }

  function ShapeDrop(h: Shape, s: nat): Shape {
    var i := Decode(s);
    var mem := Entered(h.mem, RemoveSlot(i));
    if s in h.dirty then h.(mem := mem, dirty := Erased(h.dirty, s))
    else if i in h.mem.records && h.mem.records[i] >= 0 then
      h.(mem := mem, verbs := Entered(h.verbs, RemoveSlot(Decode(h.mem.records[i]))))
    else h.(mem := mem)
  }

  function ShapeRegister(h: Shape): Shape
    requires h.dirty != []
  {
    var s := h.dirty[0];
    Shape(h.mem.(records := h.mem.records[Decode(s) := 2 * NextOf(h.verbs)]), h.dirty[1..],
          Entered(h.verbs, AddRecord(|h.order|)), h.order + [s])
  }

  function ShapeSync(h: Shape, k: nat): (r: Shape)
    requires k <= |h.dirty|
    ensures r.dirty == h.dirty[k..]
  {
    if k == 0 then h else ShapeRegister(ShapeSync(h, k - 1))
  }

  function ShapeStep(h: Shape, c: SharedCall): Shape {
    match c
    case Add => ShapeAdd(h)
    case Drop(s) => ShapeDrop(h, s)
    case Synchronise => ShapeSync(h, |h.dirty|)
  }

  function ShapeAfter(calls: seq<SharedCall>): Shape {
    if calls == [] then NoShape() else ShapeStep(ShapeAfter(calls[..|calls| - 1]), calls[|calls| - 1])
  }

  // ---------------------------------------------------------------- every process has the shape

  /** What this process sent in the collective that made a verb id. */
  ghost predicate SentAs(r: Replica, h: Shape, verb: int, memory: Memory) {
    && verb >= 0 && Decode(verb) in h.verbs.records
    && h.verbs.records[Decode(verb)] < |r.sent|
    && r.sent[h.verbs.records[Decode(verb)]] == Registration(memory.addr, memory.size)
  }

  ghost predicate SlotFits(r: Replica, h: Shape, i: nat) {
    var slots := r.table.mem.shared.slots;
    && i < |slots| && i in h.mem.records && h.mem.records[i] == slots[i].verb
    && (Encode(Global, i) !in r.table.dirty ==> SentAs(r, h, slots[i].verb, slots[i]))
  }

  ghost predicate VerbFits(r: Replica, h: Shape, v: nat) {
    var slots := r.table.verbs.shared.slots;
    && v < |slots| && v in h.verbs.records && h.verbs.records[v] < |r.got|
    && slots[v].glob == r.got[h.verbs.records[v]]
  }

  ghost predicate Fits(r: Replica, h: Shape) {
    && r.table.mem.shared.free == h.mem.free && r.table.mem.shared.minNew == h.mem.minNew
    && r.table.verbs.shared.free == h.verbs.free && r.table.verbs.shared.minNew == h.verbs.minNew
    && r.table.dirty == h.dirty && r.slots == h.mem.slots
    && r.order == h.order && |r.sent| == |r.got| == |r.order|
    && (forall i: nat :: IsLive(r.table.mem.shared, i) ==> SlotFits(r, h, i))
    && forall v: nat :: IsLive(r.table.verbs.shared, v) ==> VerbFits(r, h, v)
  }

  lemma AddFits(r: Replica, h: Shape, addr: nat, size: nat, n: nat, pid: nat)
    requires Fits(r, h) && Allowed(r, AddGlobal(addr, size))
    ensures Fits(Perform(r, AddGlobal(addr, size), n, pid), ShapeAdd(h))
  {
    AddGlobalConserves(r.table, addr, size, r.capacity);
    AddTakesSlot(r.table.mem.shared, Memory(addr, size, UNREGISTERED));
    var u, g := Perform(r, AddGlobal(addr, size), n, pid), ShapeAdd(h);
    forall i: nat | IsLive(u.table.mem.shared, i) ensures SlotFits(u, g, i) {
      if i != NextSlot(r.table.mem.shared) {
        assert SlotFits(r, h, i);
      }
    }
    forall v: nat | IsLive(u.table.verbs.shared, v) ensures VerbFits(u, g, v) {
      assert VerbFits(r, h, v);
    }
  }

  lemma DropDirtyFits(r: Replica, h: Shape, s: nat, n: nat, pid: nat)
    requires Fits(r, h) && Allowed(r, Deregister(s)) && s in r.table.dirty
    ensures Fits(Perform(r, Deregister(s), n, pid), ShapeDrop(h, s))
  {
    RemoveFreesSlot(r.table.mem.shared, Decode(s));
    ErasedMembers(r.table.dirty, s);
    var u, g := Perform(r, Deregister(s), n, pid), ShapeDrop(h, s);
    forall i: nat | IsLive(u.table.mem.shared, i) ensures SlotFits(u, g, i) {
      assert SlotFits(r, h, i);
      SlotsAreUnique(Global, i, s);
    }
    forall v: nat | IsLive(u.table.verbs.shared, v) ensures VerbFits(u, g, v) {
      assert VerbFits(r, h, v);
    }
  }

  lemma DroppedSlotFits(r: Replica, h: Shape, s: nat, n: nat, pid: nat, i: nat)
    requires Fits(r, h) && Allowed(r, Deregister(s)) && Clean(r.table, s) && KindOf(s).Global?
    requires IsLive(r.table.mem.shared, i) && i != Decode(s)
    ensures SlotFits(Perform(r, Deregister(s), n, pid), ShapeDrop(h, s), i)
  {
    var x := Encode(Global, i);
    SlotsAreUnique(Global, i, x);
    assert SlotFits(r, h, i) && SlotFits(r, h, Decode(s)) && Registered(r.table, s);
    if x !in r.table.dirty {
      OtherVerb(r.table, s, x);
    }
  }

  lemma DropCleanFits(r: Replica, h: Shape, s: nat, n: nat, pid: nat)
    requires Fits(r, h) && Allowed(r, Deregister(s)) && Clean(r.table, s) && KindOf(s).Global?
    ensures Fits(Perform(r, Deregister(s), n, pid), ShapeDrop(h, s))
  {
    RemoveFreesSlot(r.table.mem.shared, Decode(s));
    assert SlotFits(r, h, Decode(s)) && Registered(r.table, s);
    RemoveFreesSlot(r.table.verbs.shared, Decode(VerbOf(r.table, s)));
    var u, g := Perform(r, Deregister(s), n, pid), ShapeDrop(h, s);
    forall i: nat | IsLive(u.table.mem.shared, i) ensures SlotFits(u, g, i) {
      DroppedSlotFits(r, h, s, n, pid, i);
    }
    forall v: nat | IsLive(u.table.verbs.shared, v) ensures VerbFits(u, g, v) {
      assert VerbFits(r, h, v);
    }
  }

  /** Different clean slots of a kind have different entries in the RDMA layer's register. */
  lemma OtherVerb(t: Table, s: nat, x: nat)
    requires Linked(t) && Clean(t, s) && Clean(t, x) && KindOf(s) == KindOf(x) && s != x
    ensures VerbOf(t, s) >= 0 && VerbOf(t, x) >= 0 && Decode(VerbOf(t, s)) != Decode(VerbOf(t, x))
  {
    assert Registered(t, s) && Registered(t, x);
    SlotsAreUnique(KindOf(s), Decode(VerbOf(t, s)), VerbOf(t, s));
    SlotsAreUnique(KindOf(s), Decode(VerbOf(t, x)), VerbOf(t, x));
  }

  lemma FirstSlotFits(r: Replica, h: Shape, gathered: seq<Registration>)
    requires Fits(r, h) && Conserved(r.table, r.capacity) && r.table.dirty != []
    ensures SlotFits(RegisterFirst(r, gathered), ShapeRegister(h), Decode(r.table.dirty[0]))
  {
    var s, w := r.table.dirty[0], NextSlot(r.table.verbs.shared);
    RegisterConserves(r.table, gathered, r.capacity);
    assert IsLiveSlot(r.table.mem, s) && SlotFits(r, h, Decode(s));
    SlotsAreUnique(Global, w, 2 * w);
  }

  /** The verb id of a registered global slot is not the next one to be dealt out. */
  lemma VerbIsTaken(t: Table, x: nat, capacity: nat)
    requires Conserved(t, capacity) && Clean(t, x) && KindOf(x).Global?
    ensures VerbOf(t, x) >= 0 && Decode(VerbOf(t, x)) != NextSlot(t.verbs.shared)
  {
    assert Registered(t, x);
  }

  lemma OtherSlotFits(r: Replica, h: Shape, gathered: seq<Registration>, i: nat)
    requires Fits(r, h) && Conserved(r.table, r.capacity) && r.table.dirty != [] && IsLive(r.table.mem.shared, i)
    requires i != Decode(r.table.dirty[0])
    ensures SlotFits(RegisterFirst(r, gathered), ShapeRegister(h), i)
  {
    var s, x := r.table.dirty[0], Encode(Global, i);
    RegisterConserves(r.table, gathered, r.capacity);
    assert IsLiveSlot(r.table.mem, s) && SlotFits(r, h, i);
    SlotsAreUnique(Global, i, x);
    assert x in r.table.dirty ==> x in r.table.dirty[1..];
    if x !in r.table.dirty {
      VerbIsTaken(r.table, x, r.capacity);
    }
  }

  lemma RegisteredVerbFits(r: Replica, h: Shape, gathered: seq<Registration>, v: nat)
    requires Fits(r, h) && Conserved(r.table, r.capacity) && r.table.dirty != []
    requires IsLive(RegisterFirst(r, gathered).table.verbs.shared, v)
    ensures VerbFits(RegisterFirst(r, gathered), ShapeRegister(h), v)
  {
    RegisterConserves(r.table, gathered, r.capacity);
    var memory := Lookup(r.table.mem, r.table.dirty[0]);
    AddTakesSlot(r.table.verbs.shared, MemorySlot(memory.size > 0, gathered));
    if v != NextSlot(r.table.verbs.shared) {
      assert VerbFits(r, h, v);
    }
  }

  lemma RegisterFits(r: Replica, h: Shape, gathered: seq<Registration>)
    requires Fits(r, h) && Conserved(r.table, r.capacity) && r.table.dirty != []
    ensures Fits(RegisterFirst(r, gathered), ShapeRegister(h))
  {
    RegisterConserves(r.table, gathered, r.capacity);
    var u, g := RegisterFirst(r, gathered), ShapeRegister(h);
    forall i: nat | IsLive(u.table.mem.shared, i) ensures SlotFits(u, g, i) {
      if i == Decode(r.table.dirty[0]) {
        FirstSlotFits(r, h, gathered);
      } else {
        OtherSlotFits(r, h, gathered, i);
      }
    }
    forall v: nat | IsLive(u.table.verbs.shared, v) ensures VerbFits(u, g, v) {
      RegisteredVerbFits(r, h, gathered, v);
    }
  }

  lemma {:induction false} SyncFits(r: Replica, h: Shape, answers: seq<seq<Registration>>, k: nat)
    requires Fits(r, h) && Conserved(r.table, r.capacity) && k <= |answers| == |r.table.dirty|
    ensures Fits(SyncedTo(r, answers, k), ShapeSync(h, k))
  {
    if k > 0 {
      SyncFits(r, h, answers, k - 1);
      RegisterFits(SyncedTo(r, answers, k - 1), ShapeSync(h, k - 1), answers[k - 1]);
    }
  }

  lemma LocalFits(r: Replica, h: Shape, c: Call, n: nat, pid: nat)
    requires Fits(r, h) && Allowed(r, c) && SharedPart(c) == []
    ensures Fits(Perform(r, c, n, pid), h)
  {
    var u := Perform(r, c, n, pid);
    match c {
      case Deregister(s) =>
        assert Registered(r.table, s);
      case Grow(size, trimmed) =>
        ReserveKeepsSlots(r.table.mem.shared, size, Memory(0, 0, UNREGISTERED), trimmed);
        ReserveKeepsSlots(r.table.verbs.shared, size, MemorySlot(false, Nowhere(n)), trimmed);
      case _ =>
    }
    forall i: nat | IsLive(u.table.mem.shared, i) ensures SlotFits(u, h, i) {
      assert SlotFits(r, h, i);
    }
    forall v: nat | IsLive(u.table.verbs.shared, v) ensures VerbFits(u, h, v) {
      assert VerbFits(r, h, v);
    }
  }

  lemma StepFits(r: Replica, h: Shape, c: Call, n: nat, pid: nat)
    requires Fits(r, h) && Allowed(r, c)
    ensures SharedPart(c) == [] ==> Fits(Perform(r, c, n, pid), h)
    ensures SharedPart(c) != [] ==> |SharedPart(c)| == 1 && Fits(Perform(r, c, n, pid), ShapeStep(h, SharedPart(c)[0]))
  {
    match c {
      case AddGlobal(addr, size) => AddFits(r, h, addr, size, n, pid);
      case Deregister(s) =>
        if s in r.table.dirty {
          DropDirtyFits(r, h, s, n, pid);
        } else if KindOf(s).Global? {
          DropCleanFits(r, h, s, n, pid);
        } else {
          LocalFits(r, h, c, n, pid);
        }
      case Sync(answers) => SyncFits(r, h, answers, |answers|);
      case _ => LocalFits(r, h, c, n, pid);
    }
  }

  /** Whatever a process does locally, its global slots and verb ids are those of the shared calls. */
  lemma {:induction false} RunFits(calls: seq<Call>, n: nat, pid: nat)
    requires Runs(calls, n, pid)
    ensures Fits(After(calls, n, pid), ShapeAfter(Shared(calls)))
  {
    if calls != [] {
      var front, c := calls[..|calls| - 1], calls[|calls| - 1];
      RunFits(front, n, pid);
      StepFits(After(front, n, pid), ShapeAfter(Shared(front)), c, n, pid);
      if SharedPart(c) == [] {
        assert Shared(calls) == Shared(front);
      } else {
        assert Shared(calls)[..|Shared(calls)| - 1] == Shared(front);
      }
    }
  }

  lemma SameSlot(r: Replica, r': Replica, h: Shape, s: nat)
    requires Fits(r, h) && Fits(r', h) && KindOf(s).Global?
    ensures IsLiveSlot(r.table.mem, s) <==> IsLiveSlot(r'.table.mem, s)
    ensures IsLiveSlot(r.table.mem, s) ==> VerbOf(r.table, s) == VerbOf(r'.table, s)
  {
    if IsLiveSlot(r.table.mem, s) {
      assert SlotFits(r, h, Decode(s)) && SlotFits(r', h, Decode(s));
    }
  }

  /**
   * Two processes that made the same shared calls got the same slots from their global additions,
   * have the same dirty list in the same order, paired the same slot in every collective
   * registration, and have the same verb id for every global slot.
   */
  lemma ReplicasAgree(calls: seq<Call>, calls': seq<Call>, n: nat, p: nat, q: nat)
    requires Runs(calls, n, p) && Runs(calls', n, q) && Shared(calls) == Shared(calls')
    ensures var r, r' := After(calls, n, p), After(calls', n, q);
            && r.slots == r'.slots && r.table.dirty == r'.table.dirty && r.order == r'.order
            && forall s: nat :: KindOf(s).Global? ==>
                 (IsLiveSlot(r.table.mem, s) <==> IsLiveSlot(r'.table.mem, s))
                 && (IsLiveSlot(r.table.mem, s) ==> VerbOf(r.table, s) == VerbOf(r'.table, s))
  {
    RunFits(calls, n, p);
    RunFits(calls', n, q);
    var r, r', h := After(calls, n, p), After(calls', n, q), ShapeAfter(Shared(calls));
    forall s: nat | KindOf(s).Global?
      ensures IsLiveSlot(r.table.mem, s) <==> IsLiveSlot(r'.table.mem, s)
      ensures IsLiveSlot(r.table.mem, s) ==> VerbOf(r.table, s) == VerbOf(r'.table, s)
    {
      SameSlot(r, r', h, s);
    }
  }

  /** What the RDMA layer of a process has on record for process q behind a slot. */
  ghost function RemoteMemory(r: Replica, s: nat, q: nat): Registration {
    var v := VerbOf(r.table, s);
    if v < 0 then Registration(0, 0)
    else
      var slots := Side(r.table.verbs, KindOf(v)).slots;
      if Decode(v) < |slots| && q < |slots[Decode(v)].glob| then slots[Decode(v)].glob[q] else Registration(0, 0)
  }

  // ---------------------------------------------------------------- what the calls passed

  /** The live slots hold what was passed for them, and behind a local slot a process has that on record. */
  ghost predicate RemembersAt(r: Replica, n: nat, pid: nat, s: nat) {
    && (IsLiveSlot(r.table.mem, s) <==> s in r.passed)
    && (s in r.passed ==> AreaOf(r.table, s) == r.passed[s])
    && (s in r.passed && KindOf(s).Local? && pid < n ==>
          VerbOf(r.table, s) >= 0 && RemoteMemory(r, s, pid) == r.passed[s])
  }

  ghost predicate Remembers(r: Replica, n: nat, pid: nat) {
    forall s: nat :: RemembersAt(r, n, pid, s)
  }

  /** A slot that a call leaves alone keeps its memory; a local one its verb id and the record behind it. */
  ghost predicate Kept(t: Table, u: Table, s: nat) {
    && IsLiveSlot(t.mem, s) && IsLiveSlot(u.mem, s) && AreaOf(u, s) == AreaOf(t, s)
    && (KindOf(s).Local? ==>
          && VerbOf(u, s) == VerbOf(t, s) >= 0
          && (u.verbs == t.verbs || Same(t.verbs, u.verbs, VerbOf(t, s))))
  }

  lemma KeptRemembered(r: Replica, u: Replica, n: nat, pid: nat, s: nat)
    requires RemembersAt(r, n, pid, s) && Kept(r.table, u.table, s) && s in u.passed && u.passed[s] == r.passed[s]
    ensures RemembersAt(u, n, pid, s)
  {
  }

  /** The record of a live slot is the same and, if it is local, its registration is untouched. */
  lemma SameIsKept(t: Table, u: Table, s: nat, capacity: nat)
    requires Conserved(t, capacity) && IsLiveSlot(t.mem, s) && IsLiveSlot(u.mem, s) && Same(t.mem, u.mem, s)
    requires u.verbs == t.verbs || (KindOf(s).Local? && Registered(t, s) ==> Same(t.verbs, u.verbs, VerbOf(t, s)))
    ensures Kept(t, u, s)
  {
    if KindOf(s).Local? {
      assert Clean(t, s) && Registered(t, s);
    }
  }

  lemma AddLocalRemembers(r: Replica, addr: nat, size: nat, n: nat, pid: nat)
    requires Remembers(r, n, pid) && Allowed(r, AddLocal(addr, size))
    ensures Remembers(Perform(r, AddLocal(addr, size), n, pid), n, pid)
  {
    var u, s := Perform(r, AddLocal(addr, size), n, pid), NewSlot(r.table.mem, Local);
    var v, record := NewSlot(r.table.verbs, Local), MemorySlot(size > 0, OwnOnly(n, pid, Registration(addr, size)));
    AddLocalConserves(r.table, addr, size, n, pid, r.capacity);
    AddGains(r.table.mem, Local, Memory(addr, size, v), r.capacity);
    AddGains(r.table.verbs, Local, record, r.capacity);
    forall x: nat ensures RemembersAt(u, n, pid, x) {
      assert RemembersAt(r, n, pid, x);
      if x != s && x in r.passed {
        SameIsKept(r.table, u.table, x, r.capacity);
        KeptRemembered(r, u, n, pid, x);
      }
    }
  }

  lemma AddGlobalRemembers(r: Replica, addr: nat, size: nat, n: nat, pid: nat)
    requires Remembers(r, n, pid) && Allowed(r, AddGlobal(addr, size))
    ensures Remembers(Perform(r, AddGlobal(addr, size), n, pid), n, pid)
  {
    var u, s := Perform(r, AddGlobal(addr, size), n, pid), NewSlot(r.table.mem, Global);
    AddGlobalConserves(r.table, addr, size, r.capacity);
    AddGains(r.table.mem, Global, Memory(addr, size, UNREGISTERED), r.capacity);
    forall x: nat ensures RemembersAt(u, n, pid, x) {
      assert RemembersAt(r, n, pid, x);
      if x != s && x in r.passed {
        SameIsKept(r.table, u.table, x, r.capacity);
        KeptRemembered(r, u, n, pid, x);
      }
    }
  }

  lemma DeregisterRemembers(r: Replica, s: nat, n: nat, pid: nat)
    requires Remembers(r, n, pid) && Allowed(r, Deregister(s))
    ensures Remembers(Perform(r, Deregister(s), n, pid), n, pid)
  {
    var u, v := Perform(r, Deregister(s), n, pid), VerbOf(r.table, s);
    RemoveLoses(r.table.mem, s, r.capacity);
    if s !in r.table.dirty {
      assert Clean(r.table, s) && Registered(r.table, s);
      RemoveLoses(r.table.verbs, v, r.capacity);
    }
    forall x: nat ensures RemembersAt(u, n, pid, x) {
      assert RemembersAt(r, n, pid, x);
      if x != s && x in r.passed {
        if s !in r.table.dirty && KindOf(x).Local? {
          assert Clean(r.table, x) && Registered(r.table, x);
          assert IsLiveSlot(u.table.verbs, VerbOf(r.table, x));
        }
        SameIsKept(r.table, u.table, x, r.capacity);
        KeptRemembered(r, u, n, pid, x);
      }
    }
  }

  lemma GrowRemembers(r: Replica, size: nat, trimmed: bool, n: nat, pid: nat)
    requires Remembers(r, n, pid) && Allowed(r, Grow(size, trimmed))
    ensures Remembers(Perform(r, Grow(size, trimmed), n, pid), n, pid)
  {
    var u := Perform(r, Grow(size, trimmed), n, pid);
    ReserveKeepsRecords(r.table.mem, size, Memory(0, 0, UNREGISTERED), trimmed);
    ReserveKeepsRecords(r.table.verbs, size, MemorySlot(false, Nowhere(n)), trimmed);
    forall x: nat ensures RemembersAt(u, n, pid, x) {
      assert RemembersAt(r, n, pid, x);
      if x in r.passed {
        SameIsKept(r.table, u.table, x, r.capacity);
        KeptRemembered(r, u, n, pid, x);
      }
    }
  }

  lemma RegisterRemembers(r: Replica, gathered: seq<Registration>, n: nat, pid: nat)
    requires Remembers(r, n, pid) && Conserved(r.table, r.capacity) && r.table.dirty != []
    ensures Remembers(RegisterFirst(r, gathered), n, pid)
  {
    var u, s := RegisterFirst(r, gathered), r.table.dirty[0];
    RegisterConserves(r.table, gathered, r.capacity);
    AddGains(r.table.verbs, Global, MemorySlot(AreaOf(r.table, s).size > 0, gathered), r.capacity);
    UpdateChangesOne(r.table.mem, s, Lookup(r.table.mem, s).(verb := NewSlot(r.table.verbs, Global)), r.capacity);
    forall x: nat ensures RemembersAt(u, n, pid, x) {
      assert RemembersAt(r, n, pid, x) && SameMemoryAt(r.table, u.table, x);
      if x in r.passed {
        if x != s {
          SameIsKept(r.table, u.table, x, r.capacity);
        }
        KeptRemembered(r, u, n, pid, x);
      }
    }
  }

  lemma {:induction false} SyncRemembers(r: Replica, answers: seq<seq<Registration>>, k: nat, n: nat, pid: nat)
    requires Remembers(r, n, pid) && Conserved(r.table, r.capacity) && k <= |answers| == |r.table.dirty|
    ensures Remembers(SyncedTo(r, answers, k), n, pid)
  {
    if k > 0 {
      SyncRemembers(r, answers, k - 1, n, pid);
      RegisterRemembers(SyncedTo(r, answers, k - 1), answers[k - 1], n, pid);
    }
  }

  /**
   * After any calls, a slot is live exactly if the call that returned it has not been undone, its
   * address and size are those passed to that call, and behind a local slot the RDMA layer of the
   * process has just these on record for the process itself.
   */
  lemma {:induction false} RunRemembers(calls: seq<Call>, n: nat, pid: nat)
    requires Runs(calls, n, pid)
    ensures Remembers(After(calls, n, pid), n, pid)
  {
    if calls != [] {
      var front, c := calls[..|calls| - 1], calls[|calls| - 1];
      RunRemembers(front, n, pid);
      var r := After(front, n, pid);
      match c {
        case AddLocal(addr, size) => AddLocalRemembers(r, addr, size, n, pid);
        case AddGlobal(addr, size) => AddGlobalRemembers(r, addr, size, n, pid);
        case Deregister(s) => DeregisterRemembers(r, s, n, pid);
        case Grow(size, trimmed) => GrowRemembers(r, size, trimmed, n, pid);
        case Sync(answers) => SyncRemembers(r, answers, |answers|, n, pid);
      }
    }
  }

  /** The i-th all-gather of a process returns to it what every process sent in its own i-th. */
  ghost predicate Gathers(r: Replica, q: nat, other: Replica) {
    forall i :: 0 <= i < |r.got| && i < |other.sent| ==> q < |r.got[i]| && r.got[i][q] == other.sent[i]
  }

  /**
   * Address translation: for every synced live global slot, what p has on record for q is the
   * address and size that q passed to the call which returned the slot.
   */
  lemma TranslatesAddresses(calls: seq<Call>, calls': seq<Call>, n: nat, p: nat, q: nat, s: nat)
    requires Runs(calls, n, p) && Runs(calls', n, q) && Shared(calls) == Shared(calls')
    requires Gathers(After(calls, n, p), q, After(calls', n, q))
    requires KindOf(s).Global? && Clean(After(calls, n, p).table, s)
    ensures var r, r' := After(calls, n, p), After(calls', n, q);
            && Clean(r'.table, s) && VerbOf(r.table, s) == VerbOf(r'.table, s) >= 0
            && s in r'.passed && RemoteMemory(r, s, q) == r'.passed[s]
  {
    RunFits(calls, n, p);
    RunFits(calls', n, q);
    RunRemembers(calls', n, q);
    ReplicasAgree(calls, calls', n, p, q);
    var r, r', h := After(calls, n, p), After(calls', n, q), ShapeAfter(Shared(calls));
    SlotsAreUnique(Global, Decode(s), s);
    assert SlotFits(r, h, Decode(s)) && SlotFits(r', h, Decode(s));
    assert Registered(r.table, s) && RemembersAt(r', n, q, s);
    assert VerbFits(r, h, Decode(VerbOf(r.table, s)));
  }

  /** A process finds its own local memory behind the slot it got for it. */
  lemma FindsOwnMemory(calls: seq<Call>, n: nat, p: nat, s: nat)
    requires Runs(calls, n, p) && p < n && KindOf(s).Local?
    ensures var r := After(calls, n, p);
            IsLiveSlot(r.table.mem, s) <==> s in r.passed
    ensures var r := After(calls, n, p);
            IsLiveSlot(r.table.mem, s) ==> RemoteMemory(r, s, p) == r.passed[s] == AreaOf(r.table, s)
  {
    RunRemembers(calls, n, p);
    assert RemembersAt(After(calls, n, p), n, p, s);
  }
}
