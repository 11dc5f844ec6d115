/**
 * Registered memory, merged into regions: what a new register does to the index of regions, and
 * what an address is labelled with.
 *
 * Pointers are numbers.  A region is never given back: a merged region keeps the oldest number of
 * the merge, the others are discarded and hold no pending writes.
 */
module Regions {
  import opened Arithmetic
  import opened PendingWrites
  import opened Serialisation
  import opened Grains

  datatype Slot = Slot(slot: nat, base: nat, size: nat)
  datatype Region = Region(region: nat, base: nat, size: nat)
  datatype SlotToRegion = SlotToRegion(region: nat, offset: int)

  function End(r: Region): nat {
    r.base + r.size
  }

  /** The order of the region index: `a` ends before `b` begins, and does not touch it. */
  predicate Before(a: Region, b: Region) {
    a.base + a.size < b.base
  }

  // ---------------------------------------------------------------- the region index

  ghost predicate Separated(s: seq<Region>) {
    forall i, j :: 0 <= i < j < |s| ==> Before(s[i], s[j])
  }

  /** On separated regions the order of the index is a strict total order. */
  lemma BeforeIsTotal(s: seq<Region>, a: Region, b: Region, c: Region)
    requires Separated(s) && a in s && b in s && c in s
    ensures !Before(a, a)
    ensures a == b || Before(a, b) || Before(b, a)
    ensures Before(a, b) ==> !Before(b, a)
    ensures Before(a, b) && Before(b, c) ==> Before(a, c)
  {
  }

  /** How many regions at the front of the index are before `x`. */
  function LowerBound(s: seq<Region>, x: Region): (n: nat)
    ensures n <= |s| && (forall i :: 0 <= i < n ==> Before(s[i], x)) && (n < |s| ==> !Before(s[n], x))
  {
    if s == [] || !Before(s[0], x) then 0 else 1 + LowerBound(s[1..], x)
  }

  /** How many regions at the front of the index are not after `x`. */
  function UpperBound(s: seq<Region>, x: Region): (n: nat)
    ensures n <= |s| && (forall i :: 0 <= i < n ==> !Before(x, s[i])) && (n < |s| ==> Before(x, s[n]))
  {
    if s == [] || Before(x, s[0]) then 0 else 1 + UpperBound(s[1..], x)
  }

  /** The regions equivalent to `x` are the ones that overlap or touch it. */
  lemma EqualRange(s: seq<Region>, x: Region)
    requires Separated(s)
    ensures LowerBound(s, x) <= UpperBound(s, x)
    ensures forall i :: LowerBound(s, x) <= i < UpperBound(s, x) ==> !Before(s[i], x) && !Before(x, s[i])
    ensures forall i :: UpperBound(s, x) <= i < |s| ==> Before(x, s[i])
  {
    var lo, hi := LowerBound(s, x), UpperBound(s, x);
    forall i | lo <= i < |s| ensures !Before(s[i], x) {
      assert i == lo || Before(s[lo], s[i]);
    }
    forall i | hi <= i < |s| ensures Before(x, s[i]) {
      assert i == hi || Before(s[hi], s[i]);
    }
  }

  // ---------------------------------------------------------------- the merged region

  function MinBase(s: seq<Region>, lo: nat, hi: nat, x: nat): (m: nat)
    requires lo <= hi <= |s|
    ensures m <= x
    decreases hi
  {
    if lo == hi then x else Min(MinBase(s, lo, hi - 1, x), s[hi - 1].base)
  }

  function MaxEnd(s: seq<Region>, lo: nat, hi: nat, x: nat): (m: nat)
    requires lo <= hi <= |s|
    ensures m >= x
    decreases hi
  {
    if lo == hi then x else Max(MaxEnd(s, lo, hi - 1, x), End(s[hi - 1]))
  }

  function MinRegion(s: seq<Region>, lo: nat, hi: nat, x: nat): (m: nat)
    requires lo <= hi <= |s|
    ensures m <= x
    decreases hi
  {
    if lo == hi then x else Min(MinRegion(s, lo, hi - 1, x), s[hi - 1].region)
  }

  /** No region of the range begins earlier, and one of them or the new one begins there. */
  lemma {:induction false} MinBaseIsLeast(s: seq<Region>, lo: nat, hi: nat, x: nat)
    requires lo <= hi <= |s|
    ensures var m := MinBase(s, lo, hi, x);
            && m <= x && (forall i :: lo <= i < hi ==> m <= s[i].base)
            && (m == x || exists i :: lo <= i < hi && s[i].base == m)
    decreases hi
  {
    if lo < hi {
      MinBaseIsLeast(s, lo, hi - 1, x);
    }
  }

  lemma {:induction false} MaxEndIsGreatest(s: seq<Region>, lo: nat, hi: nat, x: nat)
    requires lo <= hi <= |s|
    ensures var m := MaxEnd(s, lo, hi, x);
            && m >= x && (forall i :: lo <= i < hi ==> m >= End(s[i]))
            && (m == x || exists i :: lo <= i < hi && End(s[i]) == m)
    decreases hi
  {
    if lo < hi {
      MaxEndIsGreatest(s, lo, hi - 1, x);
    }
  }

  lemma {:induction false} MinRegionIsOldest(s: seq<Region>, lo: nat, hi: nat, x: nat)
    requires lo <= hi <= |s|
    ensures var m := MinRegion(s, lo, hi, x);
            && m <= x && (forall i :: lo <= i < hi ==> m <= s[i].region)
            && (m == x || exists i :: lo <= i < hi && s[i].region == m)
    decreases hi
  {
    if lo < hi {
      MinRegionIsOldest(s, lo, hi - 1, x);
    }
  }

  /** The whole extent of a new region and everything it overlaps, under the oldest number. */
  function Merged(s: seq<Region>, lo: nat, hi: nat, x: Region): Region
    requires lo <= hi <= |s|
  {
    var base := MinBase(s, lo, hi, x.base);
    Region(MinRegion(s, lo, hi, x.region), base, MaxEnd(s, lo, hi, End(x)) - base)
  }

  /** The merged region reaches over all those of the range and the new one, and no further. */
  lemma MergedSpans(s: seq<Region>, lo: nat, hi: nat, x: Region)
    requires lo <= hi <= |s|
    ensures var m := Merged(s, lo, hi, x);
            && m.base <= x.base && End(m) >= End(x) && m.region <= x.region
            && (forall i :: lo <= i < hi ==>
                              m.base <= s[i].base && End(m) >= End(s[i]) && m.region <= s[i].region)
            && (m.base == x.base || exists i :: lo <= i < hi && s[i].base == m.base)
            && (End(m) == End(x) || exists i :: lo <= i < hi && End(s[i]) == End(m))
            && (m.region == x.region || exists i :: lo <= i < hi && s[i].region == m.region)
  {
    MinBaseIsLeast(s, lo, hi, x.base);
    MaxEndIsGreatest(s, lo, hi, End(x));
    MinRegionIsOldest(s, lo, hi, x.region);
  }

  lemma MergedFits(s: seq<Region>, x: Region, lo: nat, hi: nat, i: nat)
    requires Separated(s) && lo == LowerBound(s, x) && hi == UpperBound(s, x) && i < |s|
    ensures lo <= hi
    ensures i < lo ==> Before(s[i], Merged(s, lo, hi, x))
    ensures i >= hi ==> Before(Merged(s, lo, hi, x), s[i])
  {
    EqualRange(s, x);
    MergedSpans(s, lo, hi, x);
  }

  /** The index with the regions from `lo` to `hi` replaced by one. */
  function Replaced(sorted: seq<Region>, lo: nat, hi: nat, m: Region): seq<Region>
    requires lo <= hi <= |sorted|
  {
    sorted[..lo] + [m] + sorted[hi..]
  }

  /** The index after a new region has replaced everything it overlaps. */
  function WithRegion(s: seq<Region>, x: Region): seq<Region> {
    var lo, hi := LowerBound(s, x), UpperBound(s, x);
    if lo <= hi then Replaced(s, lo, hi, Merged(s, lo, hi, x)) else s
  }

  lemma WithRegionSeparated(s: seq<Region>, x: Region)
    requires Separated(s)
    ensures LowerBound(s, x) <= UpperBound(s, x) && Separated(WithRegion(s, x))
    ensures var lo, hi := LowerBound(s, x), UpperBound(s, x);
            WithRegion(s, x) == Replaced(s, lo, hi, Merged(s, lo, hi, x))
  {
    EqualRange(s, x);
    var lo, hi := LowerBound(s, x), UpperBound(s, x);
    var m := Merged(s, lo, hi, x);
    forall i: nat | i < |s| ensures (i < lo ==> Before(s[i], m)) && (i >= hi ==> Before(m, s[i])) {
      MergedFits(s, x, lo, hi, i);
    }
    Insertion(s, lo, hi, m);
  }

  lemma Insertion(s: seq<Region>, lo: nat, hi: nat, m: Region)
    requires Separated(s) && lo <= hi <= |s|
    requires forall i :: 0 <= i < lo ==> Before(s[i], m)
    requires forall i :: hi <= i < |s| ==> Before(m, s[i])
    ensures Separated(Replaced(s, lo, hi, m))
  {
    var t := s[..lo] + [m] + s[hi..];
    forall i, j | 0 <= i < j < |t| ensures Before(t[i], t[j]) {
      assert i < lo ==> t[i] == s[i];
      assert j < lo ==> t[j] == s[j];
      assert i > lo ==> t[i] == s[hi + (i - lo - 1)];
      assert j > lo ==> t[j] == s[hi + (j - lo - 1)];
    }
  }

  // ---------------------------------------------------------------- the layout of memory

  ghost predicate Live(sorted: seq<Region>, r: nat) {
    exists i :: 0 <= i < |sorted| && sorted[i].region == r
  }

  /** The tables of the regions in the range, other than `keep`, are given up. */
  ghost function Dropped(cells: seq<Cells>, range: seq<Region>, keep: nat): (d: seq<Cells>)
    ensures |d| == |cells|
  {
    seq(|cells|, r requires 0 <= r < |cells| => if r != keep && Live(range, r) then [] else cells[r])
  }

  lemma DroppedExtends(cells: seq<Cells>, range: seq<Region>, x: Region, keep: nat)
    requires x.region < |cells|
    ensures var d := Dropped(cells, range, keep);
            Dropped(cells, range + [x], keep) == if x.region == keep then d else d[x.region := []]
  {
    LiveExtends(range, x);
  }

  lemma LiveExtends(sorted: seq<Region>, x: Region)
    ensures forall r: nat :: Live(sorted + [x], r) <==> Live(sorted, r) || r == x.region
  {
    forall r: nat ensures Live(sorted + [x], r) <==> Live(sorted, r) || r == x.region {
      assert (sorted + [x])[|sorted|] == x;
      if i :| 0 <= i < |sorted| && sorted[i].region == r {
        assert (sorted + [x])[i] == sorted[i];
      }
    }
  }

  /** Live regions are separated and have room for their grains; discarded ones have none. */
  ghost predicate Layout(regions: seq<Region>, sorted: seq<Region>, cells: seq<Cells>, grain: Grain)
  {
    && |cells| == |regions|
    && Separated(sorted)
    && (forall i :: 0 <= i < |sorted| ==>
          && sorted[i].region < |regions| && regions[sorted[i].region] == sorted[i]
          && |cells[sorted[i].region]| == Whole(sorted[i].size, grain))
    && forall r: nat :: r < |regions| && !Live(sorted, r) ==> cells[r] == []
  }

  /** A registered slot lies in a live region, at the offset that is stored for it. */
  ghost predicate Placed(regions: seq<Region>, sorted: seq<Region>, slot: Slot, at: SlotToRegion) {
    && at.region < |regions| && Live(sorted, at.region)
    && regions[at.region].base + at.offset == slot.base
    && at.offset >= 0 && slot.base + slot.size <= End(regions[at.region])
  }

  /** Registered slots that overlap or touch are in the same region. */
  lemma OverlapSharesRegion(regions: seq<Region>, sorted: seq<Region>, cells: seq<Cells>, grain: Grain,
                            a: Slot, ra: SlotToRegion, b: Slot, rb: SlotToRegion)
    requires Layout(regions, sorted, cells, grain)
    requires Placed(regions, sorted, a, ra) && Placed(regions, sorted, b, rb)
    requires a.base <= b.base + b.size && b.base <= a.base + a.size
    ensures ra.region == rb.region
  {
    var i :| 0 <= i < |sorted| && sorted[i].region == ra.region;
    var j :| 0 <= j < |sorted| && sorted[j].region == rb.region;
    assert !Before(sorted[i], sorted[j]) && !Before(sorted[j], sorted[i]);
  }

  lemma ReplacedLive(sorted: seq<Region>, lo: nat, hi: nat, m: Region, r: nat)
    requires lo <= hi <= |sorted|
    ensures Live(Replaced(sorted, lo, hi, m), m.region)
    ensures Live(sorted, r) && !Live(sorted[lo..hi], r) ==> Live(Replaced(sorted, lo, hi, m), r)
  {
    var s' := Replaced(sorted, lo, hi, m);
    assert s'[lo] == m;
    if Live(sorted, r) && !Live(sorted[lo..hi], r) {
      var i :| 0 <= i < |sorted| && sorted[i].region == r;
      assert s'[if i < lo then i else i - hi + lo + 1] == sorted[i];
    }
  }

  lemma RegionsDistinct(
    regions: seq<Region>, sorted: seq<Region>, cells: seq<Cells>, grain: Grain, lo: nat, hi: nat, j: nat)
    requires Layout(regions, sorted, cells, grain)
    requires lo <= hi <= |sorted| && j < |sorted| && !(lo <= j < hi)
    ensures !Live(sorted[lo..hi], sorted[j].region)
  {
  }

  lemma FreshLayout(regions: seq<Region>, sorted: seq<Region>, cells: seq<Cells>, lo: nat, m: Region, grain: Grain)
    requires Layout(regions, sorted, cells, grain) && lo <= |sorted| && m.region == |regions|
    requires Separated(Replaced(sorted, lo, lo, m))
    ensures Layout(regions + [m], Replaced(sorted, lo, lo, m), cells + [Grown([], Whole(m.size, grain))], grain)
  {
    var s', cells' := Replaced(sorted, lo, lo, m), cells + [Grown([], Whole(m.size, grain))];
    forall i: nat | i < |s'|
      ensures s'[i].region <= |regions| && (regions + [m])[s'[i].region] == s'[i]
      ensures |cells'[s'[i].region]| == Whole(s'[i].size, grain)
    {
    }
    forall r: nat | r <= |regions| && !Live(s', r) ensures cells'[r] == [] {
      ReplacedLive(sorted, lo, lo, m, r);
    }
  }

  /** The cells of the merged region have grown, those of the other regions of the merge are gone. */
  ghost predicate CellsMerged(cells: seq<Cells>, cells': seq<Cells>, range: seq<Region>, m: Region, grain: Grain)
  {
    && |cells'| == |cells|
    && forall r: nat :: r < |cells| ==>
      if r == m.region then |cells[r]| <= Whole(m.size, grain) && cells'[r] == Grown(cells[r], Whole(m.size, grain))
      else if Live(range, r) then cells'[r] == []
      else cells'[r] == cells[r]
  }

  lemma MergeLayout(regions: seq<Region>, sorted: seq<Region>, cells: seq<Cells>, cells': seq<Cells>,
                    lo: nat, hi: nat, m: Region, grain: Grain)
    requires Layout(regions, sorted, cells, grain) && lo <= hi <= |sorted|
    requires m.region < |regions| && Live(sorted[lo..hi], m.region)
    requires CellsMerged(cells, cells', sorted[lo..hi], m, grain)
    requires Separated(Replaced(sorted, lo, hi, m))
    ensures Layout(regions[m.region := m], Replaced(sorted, lo, hi, m), cells', grain)
  {
    var s', regions' := Replaced(sorted, lo, hi, m), regions[m.region := m];
    forall i: nat | i < |s'|
      ensures s'[i].region < |regions'| && regions'[s'[i].region] == s'[i]
      ensures |cells'[s'[i].region]| == Whole(s'[i].size, grain)
    {
      if i != lo {
        RegionsDistinct(regions, sorted, cells, grain, lo, hi, if i < lo then i else hi + (i - lo - 1));
      }
    }
    forall r: nat | r < |regions'| && !Live(s', r) ensures cells'[r] == [] {
      ReplacedLive(sorted, lo, hi, m, r);
    }
  }

  lemma MergedRegionIsLive(
    regions: seq<Region>, sorted: seq<Region>, cells: seq<Cells>, lo: nat, hi: nat, x: Region, grain: Grain)
    requires Layout(regions, sorted, cells, grain) && x.region == |regions|
    requires lo < hi <= |sorted|
    ensures var m := Merged(sorted, lo, hi, x);
            && m.region < |regions| && Live(sorted[lo..hi], m.region) && |cells[m.region]| <= Whole(m.size, grain)
  {
    var m := Merged(sorted, lo, hi, x);
    MergedSpans(sorted, lo, hi, x);
    assert sorted[lo].region < |regions|;
    var i :| lo <= i < hi && sorted[i].region == m.region;
    assert sorted[lo..hi][i - lo] == sorted[i];
    WholeGrows(sorted[i].size, m.size, grain);
  }

  /** Moving a slot along with its region, or leaving it alone. */
  function Relabelled(range: seq<Region>, m: Region, slot: Slot, at: SlotToRegion): SlotToRegion {
    if exists i :: 0 <= i < |range| && range[i].region == at.region
    then SlotToRegion(m.region, slot.base - m.base) else at
  }

  lemma RelabelledPlaced(
    regions: seq<Region>, sorted: seq<Region>, cells: seq<Cells>, lo: nat, hi: nat, x: Region, grain: Grain,
    regions': seq<Region>, slot: Slot, at: SlotToRegion)
    requires Layout(regions, sorted, cells, grain) && lo <= hi <= |sorted|
    requires var m := Merged(sorted, lo, hi, x);
             && m.region < |regions'| && |regions| <= |regions'| && regions'[m.region] == m
             && forall r: nat :: r < |regions| && r != m.region ==> regions'[r] == regions[r]
    requires var m := Merged(sorted, lo, hi, x); m.region >= |regions| || Live(sorted[lo..hi], m.region)
    requires Placed(regions, sorted, slot, at)
    ensures Placed(regions', Replaced(sorted, lo, hi, Merged(sorted, lo, hi, x)), slot,
                   Relabelled(sorted[lo..hi], Merged(sorted, lo, hi, x), slot, at))
  {
    var range := sorted[lo..hi];
    var m := Merged(sorted, lo, hi, x);
    MergedSpans(sorted, lo, hi, x);
    ReplacedLive(sorted, lo, hi, m, at.region);
    if i :| 0 <= i < |range| && range[i].region == at.region {
      assert range[i] == sorted[lo + i];
      assert regions[at.region] == range[i];
    }
  }

  // ---------------------------------------------------------------- one registration

  /** The regions after a registration: a new one at the end, or a merged one in place. */
  ghost predicate RegionsStored(regions: seq<Region>, regions': seq<Region>, lo: nat, hi: nat, m: Region) {
    if lo == hi then regions' == regions + [m]
    else m.region < |regions| && regions' == regions[m.region := m]
  }

  lemma StoredEnds(regions: seq<Region>, regions': seq<Region>, lo: nat, hi: nat, m: Region)
    requires RegionsStored(regions, regions', lo, hi, m) && End(m) < SIZE_MAX
    requires forall i :: 0 <= i < |regions| ==> End(regions[i]) < SIZE_MAX
    ensures forall i :: 0 <= i < |regions'| ==> End(regions'[i]) < SIZE_MAX
  {
  }

  ghost predicate CellsStored(cells: seq<Cells>, cells': seq<Cells>, range: seq<Region>, m: Region, grain: Grain)
  {
    if range == [] then cells' == cells + [Grown([], Whole(m.size, grain))]
    else CellsMerged(cells, cells', range, m, grain)
  }

  /**
   * What a new region x does to the pending writes: without an overlap it comes with an empty table;
   * otherwise the oldest region of the merge keeps its table, which only grows, the others of the
   * merge lose theirs, and all the rest keep theirs.
   */
  ghost predicate CellsJoined(
    sorted: seq<Region>, x: Region, cells: seq<Cells>, cells': seq<Cells>, grain: Grain)
  {
    var lo, hi := LowerBound(sorted, x), UpperBound(sorted, x);
    lo <= hi && CellsStored(cells, cells', sorted[lo..hi], Merged(sorted, lo, hi, x), grain)
  }

  /** How a new region x is entered into the index: as region m, in place of the regions `[lo, hi)`. */
  ghost predicate Plan(regions: seq<Region>, sorted: seq<Region>, cells: seq<Cells>, grain: Grain,
                       lo: nat, hi: nat, x: Region, m: Region) {
    && lo <= hi <= |sorted| && x.region == |regions| && |cells| == |regions|
    && m == Merged(sorted, lo, hi, x)
    && Separated(Replaced(sorted, lo, hi, m))
    && End(m) < SIZE_MAX && Whole(m.size, grain) < SIZE_MAX
    && if lo == hi then m == x
       else m.region < |regions| && Live(sorted[lo..hi], m.region) && |cells[m.region]| <= Whole(m.size, grain)
  }

  lemma PlanExists(regions: seq<Region>, sorted: seq<Region>, cells: seq<Cells>, grain: Grain, x: Region)
    requires Layout(regions, sorted, cells, grain) && x.region == |regions| && End(x) < SIZE_MAX
    requires forall i :: 0 <= i < |regions| ==> End(regions[i]) < SIZE_MAX
    ensures var lo, hi := LowerBound(sorted, x), UpperBound(sorted, x);
            && lo <= hi && Plan(regions, sorted, cells, grain, lo, hi, x, Merged(sorted, lo, hi, x))
            && WithRegion(sorted, x) == Replaced(sorted, lo, hi, Merged(sorted, lo, hi, x))
  {
    var lo, hi := LowerBound(sorted, x), UpperBound(sorted, x);
    WithRegionSeparated(sorted, x);
    var m := Merged(sorted, lo, hi, x);
    assert forall i :: lo <= i < hi ==> End(sorted[i]) < SIZE_MAX;
    MergedSpans(sorted, lo, hi, x);
    if lo < hi {
      MergedRegionIsLive(regions, sorted, cells, lo, hi, x, grain);
    }
    WholeBelow(m.size, grain);
  }

  lemma KeepsLayout(
    regions: seq<Region>, sorted: seq<Region>, cells: seq<Cells>, regions': seq<Region>, cells': seq<Cells>,
    lo: nat, hi: nat, x: Region, grain: Grain)
    requires Layout(regions, sorted, cells, grain) && x.region == |regions| && lo <= hi <= |sorted|
    requires Separated(Replaced(sorted, lo, hi, Merged(sorted, lo, hi, x)))
    requires RegionsStored(regions, regions', lo, hi, Merged(sorted, lo, hi, x))
    requires CellsStored(cells, cells', sorted[lo..hi], Merged(sorted, lo, hi, x), grain)
    requires lo == hi ==> Merged(sorted, lo, hi, x) == x
    requires lo < hi ==> Live(sorted[lo..hi], Merged(sorted, lo, hi, x).region)
    ensures Layout(regions', Replaced(sorted, lo, hi, Merged(sorted, lo, hi, x)), cells', grain)
  {
    var m := Merged(sorted, lo, hi, x);
    if lo == hi {
      FreshLayout(regions, sorted, cells, lo, m, grain);
    } else {
      MergeLayout(regions, sorted, cells, cells', lo, hi, m, grain);
    }
  }

  lemma KeepsSlot(regions: seq<Region>, sorted: seq<Region>, cells: seq<Cells>, regions': seq<Region>,
                  lo: nat, hi: nat, x: Region, grain: Grain, slot: Slot, at: SlotToRegion)
    requires Layout(regions, sorted, cells, grain) && x.region == |regions| && lo <= hi <= |sorted|
    requires RegionsStored(regions, regions', lo, hi, Merged(sorted, lo, hi, x))
    requires lo == hi ==> Merged(sorted, lo, hi, x) == x
    requires lo < hi ==> Live(sorted[lo..hi], Merged(sorted, lo, hi, x).region)
    requires Placed(regions, sorted, slot, at)
    ensures Placed(regions', Replaced(sorted, lo, hi, Merged(sorted, lo, hi, x)), slot,
                   Relabelled(sorted[lo..hi], Merged(sorted, lo, hi, x), slot, at))
  {
    RelabelledPlaced(regions, sorted, cells, lo, hi, x, grain, regions', slot, at);
  }

  lemma NewSlotPlaced(regions': seq<Region>, sorted: seq<Region>, lo: nat, hi: nat, x: Region, id: nat)
    requires lo <= hi <= |sorted|
    requires var m := Merged(sorted, lo, hi, x); m.region < |regions'| && regions'[m.region] == m
    ensures var m := Merged(sorted, lo, hi, x);
            Placed(regions', Replaced(sorted, lo, hi, m), Slot(id, x.base, x.size),
                   SlotToRegion(m.region, x.base - m.base))
  {
    ReplacedLive(sorted, lo, hi, Merged(sorted, lo, hi, x), 0);
  }

  lemma KeepsEmpty(cells: seq<Cells>, cells': seq<Cells>, range: seq<Region>, m: Region, grain: Grain)
    requires CellsStored(cells, cells', range, m, grain)
    ensures forall r: nat :: r < |cells'| && !AllZero(cells'[r]) ==> r < |cells| && !AllZero(cells[r])
  {
    forall r: nat | r < |cells'| && !AllZero(cells'[r]) ensures r < |cells| && !AllZero(cells[r]) {
      var i :| 0 <= i < |cells'[r]| && cells'[r][i] != 0;
      assert r < |cells|;
      assert i < |cells[r]| && cells[r][i] != 0;
    }
  }

  // ---------------------------------------------------------------- labels of addresses

  /** Address a lies in a whole grain of the region. */
  ghost predicate InGrains(r: Region, c: Cells, grain: Grain, a: nat)
  {
    r.base <= a && Whole(a - r.base, grain) < |c|
  }

  ghost predicate InRegion(regions: seq<Region>, cells: seq<Cells>, grain: Grain, a: nat, r: nat)
  {
    r < |regions| && r < |cells| && InGrains(regions[r], cells[r], grain, a)
  }

  /** The pending label of an address. */
  ghost function LabelAt(regions: seq<Region>, cells: seq<Cells>, grain: Grain, a: nat): nat
  {
    if exists r: nat :: InRegion(regions, cells, grain, a, r) then
      var r: nat :| InRegion(regions, cells, grain, a, r);
      cells[r][Whole(a - regions[r].base, grain)]
    else 0
  }

  lemma GrainsInside(a: nat, n: nat, size: nat, grain: Grain)
    requires n == Whole(size, grain) && Whole(a, grain) < n
    ensures a < size
  {
    if a >= size {
      WholeGrows(size, a, grain);
    }
  }

  lemma InRegionIsLive(regions: seq<Region>, sorted: seq<Region>, cells: seq<Cells>, grain: Grain, a: nat, r: nat)
    requires Layout(regions, sorted, cells, grain) && InRegion(regions, cells, grain, a, r)
    ensures Live(sorted, r) && regions[r].base <= a < End(regions[r])
  {
    assert Live(sorted, r);
    var j :| 0 <= j < |sorted| && sorted[j].region == r;
    GrainsInside(a - regions[r].base, |cells[r]|, regions[r].size, grain);
  }

  /** An address lies in at most one region. */
  lemma OneRegion(regions: seq<Region>, sorted: seq<Region>, cells: seq<Cells>, grain: Grain, a: nat, q: nat, r: nat)
    requires Layout(regions, sorted, cells, grain)
    requires InRegion(regions, cells, grain, a, q) && InRegion(regions, cells, grain, a, r)
    ensures q == r
  {
    InRegionIsLive(regions, sorted, cells, grain, a, q);
    InRegionIsLive(regions, sorted, cells, grain, a, r);
    var i :| 0 <= i < |sorted| && sorted[i].region == q;
    var j :| 0 <= j < |sorted| && sorted[j].region == r;
    assert !Before(sorted[i], sorted[j]) && !Before(sorted[j], sorted[i]);
  }

  lemma LabelInRegion(regions: seq<Region>, sorted: seq<Region>, cells: seq<Cells>, grain: Grain, a: nat, r: nat)
    requires Layout(regions, sorted, cells, grain) && InRegion(regions, cells, grain, a, r)
    ensures LabelAt(regions, cells, grain, a) == cells[r][Whole(a - regions[r].base, grain)]
  {
    forall q: nat | InRegion(regions, cells, grain, a, q) ensures q == r {
      OneRegion(regions, sorted, cells, grain, a, q, r);
    }
  }

  lemma LayoutOfShape(regions: seq<Region>, sorted: seq<Region>, cells: seq<Cells>, cells': seq<Cells>, grain: Grain)
    requires Layout(regions, sorted, cells, grain) && |cells'| == |cells|
    requires forall r :: 0 <= r < |cells| ==> |cells'[r]| == |cells[r]|
    ensures Layout(regions, sorted, cells', grain)
  {
    forall r: nat | r < |regions| && !Live(sorted, r) ensures cells'[r] == [] {
      assert cells[r] == [] && |cells'[r]| == |cells[r]|;
    }
  }

  /** Changing the cells of one region changes the labels of its addresses only. */
  lemma LabelsOfUpdate(
    regions: seq<Region>, sorted: seq<Region>, cells: seq<Cells>, grain: Grain, r: nat, c: Cells, a: nat)
    requires Layout(regions, sorted, cells, grain) && r < |regions| && |c| == |cells[r]|
    ensures LabelAt(regions, cells[r := c], grain, a)
            == if InRegion(regions, cells, grain, a, r) then c[Whole(a - regions[r].base, grain)]
               else LabelAt(regions, cells, grain, a)
  {
    var cells' := cells[r := c];
    assert Layout(regions, sorted, cells', grain);
    assert forall q: nat :: InRegion(regions, cells', grain, a, q) <==> InRegion(regions, cells, grain, a, q);
    if InRegion(regions, cells, grain, a, r) {
      LabelInRegion(regions, sorted, cells', grain, a, r);
    } else if q: nat :| InRegion(regions, cells, grain, a, q) {
      LabelInRegion(regions, sorted, cells, grain, a, q);
      LabelInRegion(regions, sorted, cells', grain, a, q);
    }
  }

  /** The grains `[start, start + n)` of a region as a range of addresses. */
  function GrainRange(r: Region, id: nat, start: nat, n: nat, grain: Grain): Write {
    Write(id, r.base + Bytes(start, grain), Bytes(n, grain))
  }

  lemma GrainHits(r: Region, id: nat, start: nat, n: nat, grain: Grain, a: nat)
    ensures Hits(GrainRange(r, id, start, n, grain), a)
            <==> r.base <= a && start <= Whole(a - r.base, grain) < start + n
  {
    if r.base <= a {
      WholeRange(a - r.base, start, start + n, grain);
      BytesAdd(start, n, grain);
    }
  }

  /** The write hits exactly the grains `[start, start + n)` of region r. */
  ghost predicate HitsGrains(
    w: Write, regions: seq<Region>, cells: seq<Cells>, grain: Grain, r: nat, start: nat, n: nat, a: nat)
  {
    Hits(w, a) <==> InRegion(regions, cells, grain, a, r) && start <= Whole(a - regions[r].base, grain) < start + n
  }

  lemma GrainHitsInRegion(
    regions: seq<Region>, cells: seq<Cells>, grain: Grain, r: nat, id: nat, start: nat, n: nat, a: nat)
    requires r < |regions| && r < |cells| && start + n <= |cells[r]|
    ensures HitsGrains(GrainRange(regions[r], id, start, n, grain), regions, cells, grain, r, start, n, a)
  {
    GrainHits(regions[r], id, start, n, grain, a);
  }

  /** How the labels follow the cells of region r at one address. */
  ghost predicate UpdatedAt(regions: seq<Region>, cells: seq<Cells>, grain: Grain, r: nat, c: Cells, a: nat)
    requires r < |regions| && r < |cells| && |c| == |cells[r]|
  {
    if InRegion(regions, cells, grain, a, r) then
      && LabelAt(regions, cells, grain, a) == cells[r][Whole(a - regions[r].base, grain)]
      && LabelAt(regions, cells[r := c], grain, a) == c[Whole(a - regions[r].base, grain)]
    else LabelAt(regions, cells[r := c], grain, a) == LabelAt(regions, cells, grain, a)
  }

  lemma Updated(regions: seq<Region>, sorted: seq<Region>, cells: seq<Cells>, grain: Grain, r: nat, c: Cells, a: nat)
    requires Layout(regions, sorted, cells, grain) && r < |regions| && |c| == |cells[r]|
    ensures UpdatedAt(regions, cells, grain, r, c, a)
  {
    LabelsOfUpdate(regions, sorted, cells, grain, r, c, a);
    if InRegion(regions, cells, grain, a, r) {
      LabelInRegion(regions, sorted, cells, grain, a, r);
    }
  }

  // ---------------------------------------------------------------- alignment

  /** The padding before the first whole grain of a range, that grain, and how many there are. */
  function CutGrains(start: nat, size: nat, grain: Grain): (nat, nat, nat)
    requires Padding(start, grain) <= size
  {
    var pad := Padding(start, grain);
    (pad, Whole(start + pad, grain), Whole(size - pad, grain))
  }

  /** The cut begins at the padding, and its grains are just the whole grains that lie in the range. */
  lemma CutIsWhole(start: nat, size: nat, grain: Grain, k: nat)
    requires Padding(start, grain) <= size
    ensures var (pad, first, n) := CutGrains(start, size, grain);
            && Bytes(first, grain) == start + pad
            && (first <= k < first + n <==> start <= Bytes(k, grain) && Bytes(k + 1, grain) <= start + size)
  {
    var (pad, first, n) := CutGrains(start, size, grain);
    PaddingAligns(start, grain);
    WholeBounds(size - pad, grain);
    BytesAdd(first, n, grain);
    if k < first {
      BytesGrow(k, first, grain);
    } else if k < first + n {
      BytesGrow(first, k, grain);
      BytesGrow(k + 1, first + n, grain);
    } else {
      BytesGrow(first + n, k, grain);
    }
  }

  /** A range with a whole grain in it reaches beyond its padding, and its cut is not empty. */
  lemma WholeGrainIsCut(start: nat, size: nat, grain: Grain, k: nat)
    requires start <= Bytes(k, grain) && Bytes(k + 1, grain) <= start + size
    ensures Padding(start, grain) <= size && CutGrains(start, size, grain).2 > 0
  {
    var first := Whole(start + Padding(start, grain), grain);
    PaddingAligns(start, grain);
    if k < first {
      BytesGrow(k, first, grain);
    } else {
      BytesGrow(first, k, grain);
    }
    CutIsWhole(start, size, grain, k);
  }

  /** The grain of address a, counted from the base of its region, lies wholly in `[lo, hi)`. */
  ghost predicate GrainWithin(base: nat, grain: Grain, lo: nat, hi: nat, a: nat) {
    base <= a
    && var i := Whole(a - base, grain); lo <= base + Bytes(i, grain) && base + Bytes(i + 1, grain) <= hi
  }

  lemma CutHits(r: Region, id: nat, start: nat, size: nat, grain: Grain, a: nat)
    requires Padding(start, grain) <= size
    ensures var (_, first, n) := CutGrains(start, size, grain);
            Hits(GrainRange(r, id, first, n, grain), a)
            <==> GrainWithin(r.base, grain, r.base + start, r.base + start + size, a)
  {
    var (_, first, n) := CutGrains(start, size, grain);
    GrainHits(r, id, first, n, grain, a);
    if r.base <= a {
      CutIsWhole(start, size, grain, Whole(a - r.base, grain));
    }
  }

  lemma PushFits(regions: seq<Region>, sorted: seq<Region>, cells: seq<Cells>, grain: Grain,
                 slot: Slot, at: SlotToRegion, offset: nat, size: nat, id: nat)
    requires Layout(regions, sorted, cells, grain) && Placed(regions, sorted, slot, at)
    requires offset + size <= slot.size && Padding(at.offset + offset, grain) <= size
    ensures var (pad, first, n) := CutGrains(at.offset + offset, size, grain);
            && at.region < |cells| && first + n <= |cells[at.region]|
            && (size - pad) - Low(size - pad, grain) == Bytes(n, grain)
            && GrainRange(regions[at.region], id, first, n, grain)
                == Write(id, slot.base + offset + pad, Bytes(n, grain))
  {
    var pad := Padding(at.offset + offset, grain);
    var i :| 0 <= i < |sorted| && sorted[i].region == at.region;
    PaddingAligns(at.offset + offset, grain);
    GrainsFit(Whole(at.offset + offset + pad, grain), size - pad, regions[at.region].size, grain);
  }

  /** A push into a region raises the labels of the addresses of its grains. */
  lemma PushRaises(regions: seq<Region>, sorted: seq<Region>, cells: seq<Cells>, grain: Grain, r: nat,
                   id: nat, start: nat, n: nat)
    requires Layout(regions, sorted, cells, grain) && r < |regions| && start + n <= |cells[r]|
    ensures var w := GrainRange(regions[r], id, start, n, grain);
            forall a: nat :: LabelAt(regions, cells[r := Pushed(cells[r], id, start, n)], grain, a)
                             == Raise(LabelAt(regions, cells, grain, a), w, a)
  {
    var w := GrainRange(regions[r], id, start, n, grain);
    forall a: nat ensures LabelAt(regions, cells[r := Pushed(cells[r], id, start, n)], grain, a)
                          == Raise(LabelAt(regions, cells, grain, a), w, a)
    {
      Updated(regions, sorted, cells, grain, r, Pushed(cells[r], id, start, n), a);
      GrainHitsInRegion(regions, cells, grain, r, id, start, n, a);
    }
  }

  /** Popping the leftmost run of a region takes away its addresses, which all had its label. */
  lemma PopTakes(regions: seq<Region>, sorted: seq<Region>, cells: seq<Cells>, grain: Grain, r: nat, start: nat, n: nat)
    requires Layout(regions, sorted, cells, grain) && r < |regions| && LeftmostRun(cells[r], start, n)
    ensures var w := GrainRange(regions[r], cells[r][start] - 1, start, n, grain);
            forall a: nat ::
              && (Hits(w, a) ==> LabelAt(regions, cells, grain, a) == w.id + 1)
              && LabelAt(regions, cells[r := Cleared(cells[r], start, n)], grain, a)
                 == if Hits(w, a) then 0 else LabelAt(regions, cells, grain, a)
  {
    var w := GrainRange(regions[r], cells[r][start] - 1, start, n, grain);
    forall a: nat
      ensures Hits(w, a) ==> LabelAt(regions, cells, grain, a) == w.id + 1
      ensures LabelAt(regions, cells[r := Cleared(cells[r], start, n)], grain, a)
              == if Hits(w, a) then 0 else LabelAt(regions, cells, grain, a)
    {
      Updated(regions, sorted, cells, grain, r, Cleared(cells[r], start, n), a);
      GrainHitsInRegion(regions, cells, grain, r, w.id, start, n, a);
    }
  }

  // ---------------------------------------------------------------- what is left to drain

  /** The number of grains with a pending write. */
  function Load(cells: seq<Cells>): nat {
    if cells == [] then 0 else Load(cells[..|cells| - 1]) + NonZeros(cells[|cells| - 1])
  }

  lemma {:induction false} LoadDrops(cells: seq<Cells>, r: nat, start: nat, n: nat)
    requires r < |cells| && LeftmostRun(cells[r], start, n)
    ensures Load(cells[r := Cleared(cells[r], start, n)]) == Load(cells) - n
  {
    var cells' := cells[r := Cleared(cells[r], start, n)];
    var m := |cells| - 1;
    if r == m {
      assert cells'[..m] == cells[..m];
      ClearingDrops(cells[r], start, n);
    } else {
      assert cells'[..m] == cells[..m][r := Cleared(cells[r], start, n)];
      LoadDrops(cells[..m], r, start, n);
    }
  }

  // ---------------------------------------------------------------- labels seen from a slot

  lemma SlotInGrains(regions: seq<Region>, sorted: seq<Region>, cells: seq<Cells>, grain: Grain,
                     slot: Slot, at: SlotToRegion, offset: nat)
    requires Layout(regions, sorted, cells, grain) && Placed(regions, sorted, slot, at) && offset < slot.size
    ensures at.region < |cells| && Whole(at.offset + offset, grain) <= |cells[at.region]|
  {
    var i :| 0 <= i < |sorted| && sorted[i].region == at.region;
    WholeGrows(at.offset + offset, regions[at.region].size, grain);
  }

  /** An address of a slot is in no other region than the slot's. */
  lemma OnlyThere(regions: seq<Region>, sorted: seq<Region>, cells: seq<Cells>, grain: Grain,
                  slot: Slot, at: SlotToRegion, offset: nat, q: nat)
    requires Layout(regions, sorted, cells, grain) && Placed(regions, sorted, slot, at) && offset < slot.size
    requires InRegion(regions, cells, grain, slot.base + offset, q)
    ensures q == at.region
  {
    InRegionIsLive(regions, sorted, cells, grain, slot.base + offset, q);
    var i :| 0 <= i < |sorted| && sorted[i].region == at.region;
    var j :| 0 <= j < |sorted| && sorted[j].region == q;
    assert !Before(sorted[i], sorted[j]) && !Before(sorted[j], sorted[i]);
  }

  /** The label of an address of a slot is kept in the slot's region. */
  lemma SlotLabel(regions: seq<Region>, sorted: seq<Region>, cells: seq<Cells>, grain: Grain,
                  slot: Slot, at: SlotToRegion, offset: nat)
    requires Layout(regions, sorted, cells, grain) && Placed(regions, sorted, slot, at) && offset < slot.size
    ensures at.region < |cells| && Whole(at.offset + offset, grain) <= |cells[at.region]|
    ensures LabelAt(regions, cells, grain, slot.base + offset)
            == var i := Whole(at.offset + offset, grain);
               if i < |cells[at.region]| then cells[at.region][i] else 0
  {
    var a := slot.base + offset;
    SlotInGrains(regions, sorted, cells, grain, slot, at, offset);
    assert a - regions[at.region].base == at.offset + offset;
    if InRegion(regions, cells, grain, a, at.region) {
      LabelInRegion(regions, sorted, cells, grain, a, at.region);
    } else if q: nat :| InRegion(regions, cells, grain, a, q) {
      OnlyThere(regions, sorted, cells, grain, slot, at, offset, q);
    }
  }
}
