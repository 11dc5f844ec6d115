/** Resolving the write conflicts of a batch of messages: push them all, then pop until nothing is left. */
module WriteConflicts {
  import opened PendingWrites
  import opened SparseSets
  import opened Serialisation
  import opened Regions
  import opened Grains
  import opened MessageSorting

  /** Message `id` writes `[offset, offset + size)` of a slot. */
  datatype Request = Request(id: nat, slot: nat, offset: nat, size: nat)

  /** The whole grain of address a lies in the range of the request. */
  ghost predicate Covered(sort: MessageSort, r: Request, a: nat)
    reads sort
    requires sort.SlotsPlaced() && r.slot in sort.registered
  {
    sort.Covers(r.slot, r.offset, r.size, a)
  }

  /** The request lies in its registered slot and covers at least one whole grain. */
  ghost predicate Contends(sort: MessageSort, r: Request)
    reads sort
    requires sort.SlotsPlaced()
  {
    && r.id < MAX_ID && r.slot in sort.registered
    && r.offset + r.size <= sort.memslots[r.slot].size
    && exists a: nat :: Covered(sort, r, a)
  }

  /** The write of the message that hits just the addresses whose whole grain the request covers. */
  ghost predicate IsAligned(sort: MessageSort, r: Request, w: Write)
    reads sort
    requires sort.SlotsPlaced() && r.slot in sort.registered
  {
    w.id == r.id && forall a: nat :: Hits(w, a) <==> Covered(sort, r, a)
  }

  lemma AlignedExists(sort: MessageSort, r: Request)
    requires sort.SlotsPlaced() && Contends(sort, r)
    ensures exists w :: IsAligned(sort, r, w)
    ensures var start := sort.slotToRegion[r.slot].offset + r.offset;
            && start >= 0 && Padding(start, sort.grain) <= r.size
            && CutGrains(start, r.size, sort.grain).2 > 0
  {
    var region, start := sort.regions[sort.slotToRegion[r.slot].region], sort.slotToRegion[r.slot].offset + r.offset;
    assert Placed(sort.regions, sort.sortedRegions, sort.memslots[r.slot], sort.slotToRegion[r.slot]);
    var a: nat :| Covered(sort, r, a);
    WholeGrainIsCut(start, r.size, sort.grain, Whole(a - region.base, sort.grain));
    var (_, first, n) := CutGrains(start, r.size, sort.grain);
    var w := GrainRange(region, r.id, first, n, sort.grain);
    forall b: nat ensures Hits(w, b) <==> Covered(sort, r, b) {
      CutHits(region, r.id, start, r.size, sort.grain, b);
    }
    assert IsAligned(sort, r, w);
  }

  /** The write of whole grains a request amounts to. */
  ghost function Aligned(sort: MessageSort, r: Request): (w: Write)
    reads sort
    requires sort.SlotsPlaced() && Contends(sort, r)
    ensures IsAligned(sort, r, w)
  {
    AlignedExists(sort, r);
    var w :| IsAligned(sort, r, w);
    w
  }

  /** The pending labels are those of the given writes. */
  ghost predicate Holds(sort: MessageSort, pushed: seq<Write>)
    reads sort, sort.writes
  {
    forall a: nat :: sort.LabelOf(a) == Label(pushed, a)
  }

  method PushAligned(sort: MessageSort, r: Request)
    requires sort.Valid() && Contends(sort, r)
    modifies sort.writes, sort.dirty
    ensures sort.Valid()
    ensures forall a: nat :: sort.LabelOf(a) == Raise(old(sort.LabelOf(a)), old(Aligned(sort, r)), a)
  {
    AlignedExists(sort, r);
    ghost var w := Aligned(sort, r);
    var _, _ := sort.PushWrite(r.id, r.slot, r.offset, r.size);
    forall a: nat ensures Hits(w, a) <==> sort.Covers(r.slot, r.offset, r.size, a) {
      assert Covered(sort, r, a) <==> sort.Covers(r.slot, r.offset, r.size, a);
    }
  }

  method PushOne(sort: MessageSort, r: Request, ghost pushed: seq<Write>)
    requires sort.Valid() && Contends(sort, r) && Holds(sort, pushed)
    modifies sort.writes, sort.dirty
    ensures sort.Valid() && Holds(sort, pushed + [old(Aligned(sort, r))])
  {
    ghost var w := Aligned(sort, r);
    PushAligned(sort, r);
    forall a: nat ensures sort.LabelOf(a) == Label(pushed + [w], a) {
    }
  }

  /** What the requests amount to, in the order in which they are pushed. */
  ghost function AllAligned(sort: MessageSort, requests: seq<Request>): seq<Write>
    reads sort
    requires sort.SlotsPlaced() && forall r :: r in requests ==> Contends(sort, r)
  {
    if requests == [] then []
    else AllAligned(sort, requests[..|requests| - 1]) + [Aligned(sort, requests[|requests| - 1])]
  }

  method PushAll(sort: MessageSort, requests: seq<Request>)
    requires sort.Valid() && sort.NothingPending() && forall r :: r in requests ==> Contends(sort, r)
    modifies sort.writes, sort.dirty
    ensures sort.Valid() && Holds(sort, AllAligned(sort, requests))
    decreases |requests|
  {
    if requests == [] {
      NoLabels(sort);
    } else {
      var n := |requests| - 1;
      PushAll(sort, requests[..n]);
      PushOne(sort, requests[n], AllAligned(sort, requests[..n]));
    }
  }

  lemma NoLabels(sort: MessageSort)
    requires sort.Valid() && sort.NothingPending()
    ensures forall a: nat :: sort.LabelOf(a) == 0
  {
    forall a: nat ensures sort.LabelOf(a) == 0 {
      if r: nat :| InRegion(sort.regions, sort.Pending(), sort.grain, a, r) {
        LabelInRegion(sort.regions, sort.sortedRegions, sort.Pending(), sort.grain, a, r);
        assert AllZero(sort.writes[r].memory);
      }
    }
  }

  ghost predicate Shows(sort: MessageSort, labels: Labels)
    reads sort, sort.writes
  {
    forall a: nat :: sort.LabelOf(a) == labels(a)
  }

  ghost function Without(labels: Labels, run: Write): Labels {
    (a: nat) => if Hits(run, a) then 0 else labels(a)
  }

  /** Pops one run, of addresses that all had its label. */
  method PopOne(sort: MessageSort, ghost labels: Labels) returns (ok: bool, run: Write)
    requires sort.Valid() && Shows(sort, labels)
    modifies sort.writes, sort.dirty
    ensures sort.Valid()
    ensures !ok ==> sort.NothingPending() && forall a: nat :: labels(a) == 0
    ensures ok ==> run.size > 0 && Shows(sort, Without(labels, run)) && Load(sort.Pending()) < old(Load(sort.Pending()))
    ensures ok ==> forall a: nat :: Hits(run, a) ==> labels(a) == run.id + 1
  {
    var id, base, size;
    ok, id, base, size := sort.PopWrite();
    run := Write(id, base, size);
    if !ok {
      NoLabels(sort);
      forall a: nat ensures labels(a) == 0 {
        assert sort.LabelOf(a) == 0;
      }
    }
  }

  /** Pops until nothing is left; the runs are a drain of the labels there were. */
  method PopAll(sort: MessageSort, ghost labels: Labels) returns (runs: seq<Write>)
    requires sort.Valid() && Shows(sort, labels)
    modifies sort.writes, sort.dirty
    ensures sort.Valid() && sort.NothingPending() && Drains(labels, runs)
    decreases Load(sort.Pending())
  {
    var ok, run := PopOne(sort, labels);
    if !ok {
      return [];
    }
    var rest := PopAll(sort, Without(labels, run));
    DrainNext(labels, run, Without(labels, run), rest);
    runs := [run] + rest;
  }

  /**
   * From an empty sorter, for any requests of at least one whole grain, through any overlapping
   * slots: copying the popped runs, in the order they are popped, leaves the same memory as
   * performing the requests' whole grains one after the other in ascending id order.
   */
  method Resolve<B>(sort: MessageSort, requests: seq<Request>, ghost serial: seq<Write>,
                    ghost mem: Memory<B>, ghost data: (nat, nat) -> B) returns (runs: seq<Write>)
    requires sort.Valid() && sort.NothingPending() && forall r :: r in requests ==> Contends(sort, r)
    requires Ascending(serial) && multiset(serial) == multiset(AllAligned(sort, requests))
    modifies sort.writes, sort.dirty
    ensures sort.Valid() && sort.NothingPending()
    ensures forall k, l :: 0 <= k < l < |runs| ==> Disjoint(runs[k], runs[l])
    ensures forall a: nat :: Perform(runs, mem, data, a) == Perform(serial, mem, data, a)
  {
    ghost var pushed := AllAligned(sort, requests);
    PushAll(sort, requests);
    ghost var labels: Labels := (a: nat) => Label(pushed, a);
    runs := PopAll(sort, labels);
    forall a: nat ensures Perform(runs, mem, data, a) == Perform(serial, mem, data, a) {
      DrainIsSerialisation(pushed, serial, labels, runs, mem, data, a);
    }
  }
}
