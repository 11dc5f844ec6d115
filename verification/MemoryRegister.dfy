/** Registers that hand out slot numbers for records, and the combination of a local and a global one. */
module MemoryRegisters {
  import opened Arithmetic
  import opened SparseSets

  // ---------------------------------------------------------------- the register as a value

  /** `room` is the capacity of the free list, which may not grow while a slot is removed. */
  datatype Register<R> = Register(slots: seq<R>, free: seq<nat>, minNew: nat, room: nat)

  function Empty<R>(): Register<R> {
    Register([], [], 0, 0)
  }

  ghost function Below(n: nat): (s: set<nat>)
    ensures |s| == n && forall x: nat :: x in s <==> x < n
  {
    if n == 0 then {}
    else assert n - 1 !in Below(n - 1); Below(n - 1) + {n - 1}
  }

  predicate IsLive<R>(r: Register<R>, x: nat) {
    x < r.minNew && x !in r.free
  }

  ghost function Live<R>(r: Register<R>): set<nat> {
    set x | x in Below(r.minNew) && IsLive(r, x)
  }

  /** How many slots are live; lemma LiveSize shows that it is just that. */
  function Count<R>(r: Register<R>): int {
    r.minNew - |r.free|
  }

  ghost predicate Sound<R>(r: Register<R>) {
    && Distinct(r.free)
    && (forall x :: x in r.free ==> x < r.minNew)
    && r.minNew <= |r.slots| <= r.room
  }

  /** The slot the next record gets. */
  function NextSlot<R>(r: Register<R>): nat {
    if r.free == [] then r.minNew else r.free[|r.free| - 1]
  }

  function Added<R>(r: Register<R>, record: R): Register<R>
    requires NextSlot(r) < |r.slots|
  {
    var stored := r.slots[NextSlot(r) := record];
    if r.free == [] then r.(slots := stored, minNew := r.minNew + 1)
    else r.(slots := stored, free := r.free[..|r.free| - 1])
  }

  function Removed<R>(r: Register<R>, slot: nat): Register<R> {
    if slot == r.minNew - 1 then r.(minNew := slot) else r.(free := r.free + [slot])
  }

  /** `trimmed` tells whether the free list could be copied to a tighter allocation. */
  function Reserved<R>(r: Register<R>, size: nat, filler: R, trimmed: bool): Register<R>
    requires r.minNew <= |r.slots|
  {
    if |r.slots| < size then
      r.(slots := r.slots + seq(size - |r.slots|, i => filler), room := Max(r.room, size))
    else
      var kept := Max(size, r.minNew);
      r.(slots := r.slots[..kept], room := if trimmed then Max(|r.free|, kept) else r.room)
  }

  // ---------------------------------------------------------------- counting slots

  lemma {:induction false} DistinctSize(s: seq<nat>)
    requires Distinct(s)
    ensures |Elements(s)| == |s|
  {
    if s == [] {
      assert Elements(s) == {};
    } else {
      var t := s[..|s| - 1];
      DistinctSize(t);
      assert forall x :: x in s <==> x in t || x == s[|s| - 1];
      assert Elements(s) == Elements(t) + {s[|s| - 1]};
    }
  }

  /** The live slots are those dealt out, less a free list without duplicates. */
  lemma LiveSize<R>(r: Register<R>)
    requires Sound(r)
    ensures |Live(r)| == Count(r)
  {
    DistinctSize(r.free);
    assert Elements(r.free) <= Below(r.minNew);
    assert Live(r) == Below(r.minNew) - Elements(r.free);
  }

  /** A record fits exactly when fewer slots are live than there are. */
  lemma RoomForOne<R>(r: Register<R>)
    requires Sound(r)
    ensures NextSlot(r) < |r.slots| <==> Count(r) < |r.slots|
  {
    if r.free != [] {
      assert r.free[|r.free| - 1] in r.free;
    }
  }

  /** Removing a live slot never makes the free list outgrow its allocation. */
  lemma FreeListFits<R>(r: Register<R>, slot: nat)
    requires Sound(r) && IsLive(r, slot)
    ensures Count(r) > 0 && |r.free| < r.room
  {
    LiveSize(r);
    assert slot in Live(r);
  }

  // ---------------------------------------------------------------- what each operation does

  /** A record gets a slot that was not live, and no live record moves. */
  lemma AddTakesSlot<R>(r: Register<R>, record: R)
    requires Sound(r) && Count(r) < |r.slots|
    ensures NextSlot(r) < |r.slots| && !IsLive(r, NextSlot(r))
    ensures var t := Added(r, record);
            && Sound(t) && |t.slots| == |r.slots| && t.slots[NextSlot(r)] == record
            && forall x: nat :: IsLive(t, x) <==> IsLive(r, x) || x == NextSlot(r)
    ensures forall x: nat :: IsLive(r, x) ==> Added(r, record).slots[x] == r.slots[x]
  {
    RoomForOne(r);
    if r.free != [] {
      var n := |r.free| - 1;
      assert r.free == r.free[..n] + [r.free[n]];
      forall x: nat ensures x in r.free <==> x in r.free[..n] || x == r.free[n] {
      }
      assert r.free[n] !in r.free[..n];
    }
  }

  lemma RemoveFreesSlot<R>(r: Register<R>, slot: nat)
    requires Sound(r) && IsLive(r, slot)
    ensures var t := Removed(r, slot);
            Sound(t) && t.slots == r.slots && forall x: nat :: IsLive(t, x) <==> IsLive(r, x) && x != slot
  {
  }

  /**
   * The slot freed last is the first to be dealt out again, and that takes back its removal; it is not
   * if the removal has only lowered the number of slots dealt out, while others are free.
   */
  lemma AddTakesBack<R>(r: Register<R>, slot: nat, record: R)
    requires Sound(r) && IsLive(r, slot)
    ensures NextSlot(Removed(r, slot)) == slot <==> slot != r.minNew - 1 || r.free == []
    ensures slot != r.minNew - 1 || r.free == [] ==>
              Added(Removed(r, slot), record) == r.(slots := r.slots[slot := record])
    ensures slot == r.minNew - 1 && r.free != [] ==>
              Removed(r, slot).minNew == slot && NextSlot(Removed(r, slot)) == NextSlot(r) < slot
  {
    if r.free != [] {
      assert r.free[|r.free| - 1] in r.free;
    }
    assert (r.free + [slot])[..|r.free|] == r.free;
  }

  lemma ReserveKeepsSlots<R>(r: Register<R>, size: nat, filler: R, trimmed: bool)
    requires Sound(r)
    ensures var t := Reserved(r, size, filler, trimmed);
            && Sound(t) && |t.slots| == Max(size, r.minNew) && t.free == r.free && t.minNew == r.minNew
            && forall x: nat :: IsLive(r, x) ==> t.slots[x] == r.slots[x]
  {
    LiveSize(r);
  }

  // ---------------------------------------------------------------- whole runs

  datatype Request<R> = AddRecord(record: R) | RemoveSlot(slot: nat) | ReserveSlots(size: nat, filler: R, trimmed: bool)

  ghost predicate Allowed<R>(r: Register<R>, q: Request<R>) {
    match q
    case AddRecord(_) => NextSlot(r) < |r.slots|
    case RemoveSlot(slot) => IsLive(r, slot)
    case ReserveSlots(_, _, _) => r.minNew <= |r.slots|
  }

  ghost function Perform<R>(r: Register<R>, q: Request<R>): Register<R>
    requires Allowed(r, q)
  {
    match q
    case AddRecord(record) => Added(r, record)
    case RemoveSlot(slot) => Removed(r, slot)
    case ReserveSlots(size, filler, trimmed) => Reserved(r, size, filler, trimmed)
  }

  /** The register allows every request of a run that starts from an empty register. */
  ghost predicate Runs<R>(qs: seq<Request<R>>)
    decreases |qs|, 0
  {
    qs == [] || (Runs(qs[..|qs| - 1]) && Allowed(After(qs[..|qs| - 1]), qs[|qs| - 1]))
  }

  ghost function After<R>(qs: seq<Request<R>>): Register<R>
    requires Runs(qs)
    decreases |qs|, 1
  {
    if qs == [] then Empty() else Perform(After(qs[..|qs| - 1]), qs[|qs| - 1])
  }

  /** The slots the additions of a run returned. */
  ghost function Returned<R>(qs: seq<Request<R>>): seq<nat>
    requires Runs(qs)
  {
    if qs == [] then []
    else Returned(qs[..|qs| - 1])
         + if qs[|qs| - 1].AddRecord? then [NextSlot(After(qs[..|qs| - 1]))] else []
  }

  /** The additions and removals of a run: what all processes have in common. */
  function Calls<R>(qs: seq<Request<R>>): seq<Request<R>> {
    if qs == [] then []
    else Calls(qs[..|qs| - 1]) + if qs[|qs| - 1].ReserveSlots? then [] else [qs[|qs| - 1]]
  }

  /** An unbounded register: what the slots and live records should be, whatever was reserved. */
  datatype Book<R> = Book(free: seq<nat>, minNew: nat, records: map<nat, R>, slots: seq<nat>)

  function Entered<R>(b: Book<R>, q: Request<R>): Book<R> {
    match q
    case AddRecord(record) =>
      if b.free == [] then Book([], b.minNew + 1, b.records[b.minNew := record], b.slots + [b.minNew])
      else var slot := b.free[|b.free| - 1];
           Book(b.free[..|b.free| - 1], b.minNew, b.records[slot := record], b.slots + [slot])
    case RemoveSlot(slot) =>
      if slot == b.minNew - 1 then b.(minNew := slot, records := b.records - {slot})
      else b.(free := b.free + [slot], records := b.records - {slot})
    case ReserveSlots(_, _, _) => b
  }

  function Ledger<R>(calls: seq<Request<R>>): Book<R> {
    if calls == [] then Book([], 0, map[], [])
    else Entered(Ledger(calls[..|calls| - 1]), calls[|calls| - 1])
  }

  /** The register's live slots and records, and its free list, are those of the unbounded book. */
  ghost predicate Matches<R>(r: Register<R>, slots: seq<nat>, b: Book<R>) {
    && Sound(r) && r.free == b.free && r.minNew == b.minNew && slots == b.slots
    && forall x: nat :: (x in b.records <==> IsLive(r, x)) && (x in b.records ==> r.slots[x] == b.records[x])
  }

  lemma AddMatches<R>(r: Register<R>, slots: seq<nat>, b: Book<R>, record: R)
    requires Matches(r, slots, b) && NextSlot(r) < |r.slots|
    ensures Matches(Added(r, record), slots + [NextSlot(r)], Entered(b, AddRecord(record)))
  {
    RoomForOne(r);
    AddTakesSlot(r, record);
    assert Entered(b, AddRecord(record)).records == b.records[NextSlot(r) := record];
  }

  lemma RemoveMatches<R>(r: Register<R>, slots: seq<nat>, b: Book<R>, slot: nat)
    requires Matches(r, slots, b) && IsLive(r, slot)
    ensures Matches(Removed(r, slot), slots, Entered(b, RemoveSlot(slot)))
  {
    RemoveFreesSlot(r, slot);
    assert Entered(b, RemoveSlot(slot)).records == b.records - {slot};
  }

  /** Every run of the register, with any reserves, behaves like the unbounded book. */
  lemma {:induction false} RunMatchesLedger<R>(qs: seq<Request<R>>)
    requires Runs(qs)
    ensures Matches(After(qs), Returned(qs), Ledger(Calls(qs)))
  {
    if qs != [] {
      var q, front := qs[|qs| - 1], qs[..|qs| - 1];
      RunMatchesLedger(front);
      var before, slots, b := After(front), Returned(front), Ledger(Calls(front));
      assert Calls(qs) == if q.ReserveSlots? then Calls(front) else Calls(front) + [q];
      assert !q.ReserveSlots? ==> Calls(qs)[..|Calls(qs)| - 1] == Calls(front);
      match q {
        case AddRecord(record) => AddMatches(before, slots, b, record);
        case RemoveSlot(slot) => RemoveMatches(before, slots, b, slot);
        case ReserveSlots(size, filler, trimmed) => ReserveKeepsSlots(before, size, filler, trimmed);
      }
    }
  }

  /**
   * Slot numbers do not depend on reserves: with the same additions and removals, and any
   * reserves that allow them, the same slots are returned and the same records are live.
   */
  lemma SlotsIgnoreReserves<R>(qs: seq<Request<R>>, qs': seq<Request<R>>)
    requires Runs(qs) && Runs(qs') && Calls(qs) == Calls(qs')
    ensures Returned(qs) == Returned(qs')
    ensures var r, r' := After(qs), After(qs');
            forall x: nat :: (IsLive(r, x) <==> IsLive(r', x)) &&
                        (IsLive(r, x) ==> x < |r.slots| && x < |r'.slots| && r.slots[x] == r'.slots[x])
  {
    RunMatchesLedger(qs);
    RunMatchesLedger(qs');
  }

  // ---------------------------------------------------------------- the running code

  class MemoryRegister<R> {
    var slots: seq<R>
    var free: seq<nat>
    var minNew: nat
    var room: nat

    ghost function State(): Register<R>
      reads this
    {
      Register(slots, free, minNew, room)
    }

    ghost predicate Valid()
      reads this
    {
      Sound(State())
    }

    constructor ()
      ensures Valid() && State() == Empty()
    {
      slots, free, minNew, room := [], [], 0, 0;
    }

    method Add(record: R) returns (slot: nat)
      requires Valid() && Count(State()) < |slots|
      modifies this
      ensures Valid() && slot == NextSlot(old(State())) < |old(slots)|
      ensures State() == Added(old(State()), record)
      ensures |slots| == |old(slots)| && slots[slot] == record && !IsLive(old(State()), slot)
      ensures forall x: nat :: IsLive(State(), x) <==> IsLive(old(State()), x) || x == slot
    {
      AddTakesSlot(State(), record);
      if free == [] {
        slot := minNew;
        minNew := minNew + 1;
      } else {
        slot := free[|free| - 1];
        free := free[..|free| - 1];
      }
      slots := slots[slot := record];
    }

    method Remove(slot: nat)
      requires Valid() && IsLive(State(), slot)
      modifies this
      ensures Valid() && State() == Removed(old(State()), slot)
      ensures forall x: nat :: IsLive(State(), x) <==> IsLive(old(State()), x) && x != slot
      ensures |free| <= room == old(room) && slots == old(slots)
    {
      FreeListFits(State(), slot);
      RemoveFreesSlot(State(), slot);
      if slot == minNew - 1 {
        minNew := minNew - 1;
      } else {
        assert |free| < room;
        free := free + [slot];
      }
    }

    method Reserve(size: nat, filler: R, trimmed: bool)
      requires Valid()
      modifies this
      ensures Valid() && State() == Reserved(old(State()), size, filler, trimmed)
      ensures |slots| == Max(size, minNew) && minNew == old(minNew) && free == old(free)
      ensures room == if |old(slots)| < size then Max(old(room), size)
                      else if trimmed then Max(|free|, |slots|) else old(room)
      ensures forall x: nat :: IsLive(State(), x) ==> slots[x] == old(slots)[x]
    {
      ReserveKeepsSlots(State(), size, filler, trimmed);
      if |slots| < size {
        room := Max(room, size);
        slots := slots + seq(size - |slots|, i => filler);
      } else {
        var kept := Max(size, minNew);
        slots := slots[..kept];
        if trimmed {
          room := Max(|free|, kept);
        }
      }
    }
  }
}
