/** The memory registrations of the RDMA layer. */
module Registrars {
  import opened MemoryRegisters
  import opened CombinedRegisters

  datatype Registration = Registration(addr: nat, size: nat)

  /** The layer's record: a device registration unless empty, and where every process has its memory. */
  datatype MemorySlot = MemorySlot(registered: bool, glob: seq<Registration>)

  /** Without an all-gather, a process knows only its own part. */
  function OwnOnly(n: nat, pid: nat, own: Registration): (g: seq<Registration>)
    ensures |g| == n && forall q :: 0 <= q < n ==> g[q] == if q == pid then own else Registration(0, 0)
  {
    seq(n, q => if q == pid then own else Registration(0, 0))
  }

  function Nowhere(n: nat): seq<Registration> {
    seq(n, q => Registration(0, 0))
  }

  class Registrar {
    const memreg: CombinedMemoryRegister<MemorySlot>
    const nprocs: nat
    const pid: nat

    constructor (n: nat, id: nat)
      ensures memreg.Valid() && memreg.State() == NoSlots() && nprocs == n && pid == id
      ensures fresh(memreg.local) && fresh(memreg.shared)
    {
      memreg := new CombinedMemoryRegister();
      nprocs, pid := n, id;
    }

    method RegLocal(addr: nat, size: nat) returns (id: nat)
      requires memreg.Valid() && Count(memreg.local.State()) < |memreg.local.slots|
      modifies memreg.local
      ensures memreg.Valid() && id == NewSlot(old(memreg.State()), Local)
      ensures NextSlot(old(memreg.local.State())) < |old(memreg.local.slots)|
      ensures memreg.State() == AddedReg(old(memreg.State()), Local,
                                         MemorySlot(size > 0, OwnOnly(nprocs, pid, Registration(addr, size))))
    {
      id := memreg.AddLocalReg(MemorySlot(size > 0, OwnOnly(nprocs, pid, Registration(addr, size))));
    }

    /**
     * A collective call: `own` is what this process contributes to the all-gather of the
     * registrations, and `gathered` what it returned.
     */
    method RegGlobal(addr: nat, size: nat, gathered: seq<Registration>) returns (id: nat, own: Registration)
      requires memreg.Valid() && Count(memreg.shared.State()) < |memreg.shared.slots|
      modifies memreg.shared
      ensures memreg.Valid() && id == NewSlot(old(memreg.State()), Global)
      ensures NextSlot(old(memreg.shared.State())) < |old(memreg.shared.slots)|
      ensures memreg.State() == AddedReg(old(memreg.State()), Global, MemorySlot(size > 0, gathered))
      ensures own == Registration(addr, size)
    {
      own := Registration(addr, size);
      id := memreg.AddGlobalReg(MemorySlot(size > 0, gathered));
    }

    method Dereg(id: nat)
      requires memreg.Valid() && IsLiveSlot(memreg.State(), id)
      modifies memreg.local, memreg.shared
      ensures memreg.Valid() && memreg.State() == RemovedReg(old(memreg.State()), id)
    {
      memreg.RemoveReg(id);
    }

    method ResizeMemreg(size: nat, trimmed: bool)
      requires memreg.Valid()
      modifies memreg.local, memreg.shared
      ensures memreg.Valid()
      ensures memreg.State() == ReservedBoth(old(memreg.State()), size, MemorySlot(false, Nowhere(nprocs)), trimmed)
    {
      memreg.Reserve(size, MemorySlot(false, Nowhere(nprocs)), trimmed);
    }
  }
}
