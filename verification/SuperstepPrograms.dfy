/** Which programs the superstep protocol serves, and the promises spelled out for each kind. */
module SuperstepPrograms {
  import opened Tallies
  import opened Verbs
  import opened Superstep
  import opened SuperstepSafety
  import opened SuperstepRuns

  // ---------------------------------------------------------------- what each mode asks for

  /** A cached sync before superstep k, and no default sync since then. */
  ghost predicate FilledBefore(P: Program, k: nat, p: nat) {
    exists j: nat :: FilledAt(P, j, k, p)
  }

  ghost predicate FilledAt(P: Program, j: nat, k: nat, p: nat) {
    j < k && P.attr(j, p).mode.Cached? && forall i: nat :: j < i < k ==> !P.attr(i, p).mode.Default?
  }

  lemma {:induction false} FilledExactly(P: Program, k: nat, p: nat)
    ensures CacheAt(P, k, p).0 <==> FilledBefore(P, k, p)
  {
    if k > 0 {
      FilledExactly(P, k - 1, p);
      if FilledBefore(P, k, p) {
        var j: nat :| FilledAt(P, j, k, p);
        assert j == k - 1 || FilledAt(P, j, k - 1, p);
      }
      if P.attr(k - 1, p).mode.Cached? {
        assert FilledAt(P, k - 1, k, p);
      } else if !P.attr(k - 1, p).mode.Default? && FilledBefore(P, k - 1, p) {
        var j: nat :| FilledAt(P, j, k - 1, p);
        assert FilledAt(P, j, k, p);
      }
    }
  }

  /**
   * The collective calls of a superstep, mode by mode: only default syncs vote, and the only others
   * that exchange counts are cached ones that find the cache empty.
   */
  lemma CallsByMode(P: Program, k: nat, p: nat)
    ensures StepCalls(P, k, p)
            == (if P.attr(k, p).mode.Default? then [Vote, Exchange(Row(P, p, k))]
                else if P.attr(k, p).mode.Cached? && !FilledBefore(P, k, p) then [Exchange(Row(P, p, k))]
                else [])
               + (if P.attr(k, p).barrier then [Barrier] else [])
    ensures P.attr(k, p).mode.Message? || P.attr(k, p).mode.NoMode? ==>
              forall c :: c in StepCalls(P, k, p) ==> c == Barrier
  {
    FilledExactly(P, k, p);
  }

  /** A process in a vote or an exchange has no request yet, and only the modes that exchange get there. */
  ghost predicate StageFits(P: Program, s: System, p: nat)
    requires p < |s.procs|
  {
    var pr, mode := s.procs[p], AttrNow(P, s, p).mode;
    && (!pr.stage.Computing? ==> !pr.verbs.request.isActive)
    && (pr.stage.Voting? ==> mode.Default?)
    && (pr.stage.Exchanging? ==> mode.Default? || (mode.Cached? && !pr.verbs.cached))
  }

  lemma StageKept(P: Program, s: System, e: Event, s': System, p: nat)
    requires Step(P, s, e, s') && p < P.n && StageFits(P, s, p)
    ensures |s'.procs| == P.n && StageFits(P, s', p)
  {
  }

  lemma {:induction false} RunStages(P: Program, run: seq<System>, events: seq<Event>, i: nat, p: nat)
    requires IsRun(P, run, events) && i < |run| && p < P.n
    ensures |run[i].procs| == P.n && StageFits(P, run[i], p)
  {
    if i > 0 {
      RunStages(P, run, events, i - 1, p);
      assert Step(P, run[i - 1], events[i - 1], run[i - 1 + 1]);
      StageKept(P, run[i - 1], events[i - 1], run[i], p);
    }
  }

  /** The request that a sync in this superstep's mode leaves, and the cache it leaves. */
  ghost predicate WaitsFor(P: Program, s: System, t: System, p: nat, count: nat)
    requires p < |s.procs| && p < |t.procs|
  {
    var v, w := s.procs[p].verbs, t.procs[p].verbs;
    && t.procs[p].stage.Computing? && w.request.isActive && w.request.withBarrier == AttrNow(P, s, p).barrier
    && w.request.remoteMsgs == count && w.counter == v.counter && w.recvCounts == v.recvCounts
  }

  ghost predicate SameCache(s: System, t: System, p: nat)
    requires p < |s.procs| && p < |t.procs|
  {
    s.procs[p].verbs.cached == t.procs[p].verbs.cached && s.procs[p].verbs.cachedValue == t.procs[p].verbs.cachedValue
  }

  /**
   * In any run, a sync that is told its count waits for just that count, at once and without a
   * collective call; so does a cached sync for the cached count.  Neither changes the cache.
   */
  lemma CallsWait(P: Program, run: seq<System>, events: seq<Event>, i: nat, p: nat)
    requires IsRun(P, run, events) && i < |events| && p < P.n && events[i] == CallSync(p)
    ensures |run[i].procs| == |run[i + 1].procs| == P.n
    ensures var s, t, mode := run[i], run[i + 1], AttrNow(P, run[i], p).mode;
            && SameCache(s, t, p)
            && (mode.Message? ==> WaitsFor(P, s, t, p, mode.count) && t.procs[p].calls == s.procs[p].calls)
            && (mode.NoMode? ==> WaitsFor(P, s, t, p, 0) && t.procs[p].calls == s.procs[p].calls)
            && (mode.Cached? && s.procs[p].verbs.cached ==>
                  WaitsFor(P, s, t, p, s.procs[p].verbs.cachedValue) && t.procs[p].calls == s.procs[p].calls)
            && (mode.Default? || (mode.Cached? && !s.procs[p].verbs.cached) ==>
                  && t.procs[p].stage.Exchanging? && !t.procs[p].verbs.request.isActive
                  && t.procs[p].calls == s.procs[p].calls + [Exchange(s.procs[p].verbs.numMsgsSync)])
  {
    RunStages(P, run, events, i, p);
    assert Step(P, run[i], events[i], run[i + 1]);
  }

  /**
   * In any run, a count exchange returns only to default syncs, which empty the cache, and to cached
   * ones that found it empty and now fill it; they wait for what all processes together passed.
   */
  lemma ExchangesWait(P: Program, run: seq<System>, events: seq<Event>, i: nat, p: nat)
    requires IsRun(P, run, events) && i < |events| && p < P.n && events[i] == ReturnExchange(p)
    ensures |run[i].procs| == |run[i + 1].procs| == P.n && Enabled(P, run[i], ReturnExchange(p))
    ensures var s, t, mode := run[i], run[i + 1], AttrNow(P, run[i], p).mode;
            var sum := ExchangeSum(s, |s.procs[p].calls| - 1, p, P.n);
            && (mode.Default? || (mode.Cached? && !s.procs[p].verbs.cached))
            && WaitsFor(P, s, t, p, sum) && t.procs[p].calls == s.procs[p].calls
            && t.procs[p].verbs.cached == mode.Cached? && t.procs[p].verbs.cachedValue == sum
  {
    RunStages(P, run, events, i, p);
    assert Step(P, run[i], events[i], run[i + 1]);
  }

  // ---------------------------------------------------------------- the cached count

  /** The last superstep before k whose sync exchanged counts. */
  ghost function LastExchange(P: Program, k: nat, p: nat): nat {
    if k == 0 then 0 else if Exchanges(P, k - 1, p) then k - 1 else LastExchange(P, k - 1, p)
  }

  /** A filled cache holds what the last count exchange computed, whatever came in between. */
  lemma {:induction false} CacheHoldsExchange(P: Program, k: nat, p: nat)
    requires CacheAt(P, k, p).0
    ensures LastExchange(P, k, p) < k && Exchanges(P, LastExchange(P, k, p), p)
    ensures CacheAt(P, k, p).1 == Incoming(P.plan, P.n, p, LastExchange(P, k, p))
  {
    if !Exchanges(P, k - 1, p) {
      CacheHoldsExchange(P, k - 1, p);
    }
  }

  /** Everybody syncs superstep k in the same mode, though message counts may differ. */
  ghost predicate SameModesAt(P: Program, k: nat, p: nat, q: nat) {
    var a, b := P.attr(k, p), P.attr(k, q);
    && (a.mode.Default? ==> a.barrier)
    && a.barrier == b.barrier
    && a.mode.Default? == b.mode.Default? && a.mode.Cached? == b.mode.Cached?
  }

  ghost predicate SameModes(P: Program) {
    forall k: nat, p: nat, q: nat :: p < P.n && q < P.n ==> SameModesAt(P, k, p, q)
  }

  /** Under the same modes the cache flag agrees everywhere, so all or none enter an exchange. */
  lemma {:induction false} CacheFlagsAgree(P: Program, k: nat, p: nat, q: nat)
    requires SameModes(P) && p < P.n && q < P.n
    ensures CacheAt(P, k, p).0 == CacheAt(P, k, q).0
    ensures AgreedAt(P, k, p, q)
  {
    assert SameModesAt(P, k, p, q);
    if k > 0 {
      CacheFlagsAgree(P, k - 1, p, q);
      assert SameModesAt(P, k - 1, p, q);
    }
  }

  /** A sync without an exchange repeats the counts of the last exchange, or is told the sum. */
  ghost predicate RepeatsAt(P: Program, k: nat, p: nat) {
    match P.attr(k, p).mode
    case Default => true
    case Cached =>
      CacheAt(P, k, p).0 ==> forall q: nat :: q < P.n ==> P.plan(q, p, k) == P.plan(q, p, LastExchange(P, k, p))
    case Message(count) => count == Incoming(P.plan, P.n, p, k)
    case NoMode => Incoming(P.plan, P.n, p, k) == 0
  }

  ghost predicate Repeats(P: Program) {
    forall k: nat, p: nat :: p < P.n ==> RepeatsAt(P, k, p)
  }

  /** For such programs the cached count is what the exchange would have computed. */
  lemma CachedRefinesDefault(P: Program)
    requires SameModes(P) && Repeats(P)
    ensures Agreed(P) && CountsRight(P)
  {
    forall k: nat, p: nat, q: nat | p < P.n && q < P.n ensures AgreedAt(P, k, p, q) {
      CacheFlagsAgree(P, k, p, q);
    }
    forall k: nat, p: nat | p < P.n ensures CountRightAt(P, k, p) {
      assert RepeatsAt(P, k, p);
      if P.attr(k, p).mode.Cached? && CacheAt(P, k, p).0 {
        CacheHoldsExchange(P, k, p);
        IncomingEqual(P.plan, P.plan, P.n, p, k, LastExchange(P, k, p));
      }
    }
  }

  // ---------------------------------------------------------------- barrier in every superstep

  ghost predicate AllBarriers(P: Program) {
    forall k: nat, p: nat :: p < P.n ==> P.attr(k, p).barrier
  }

  ghost function Everyone(): Neighbours {
    (p, q) => true
  }

  /** With a barrier in every superstep all counters are equal or one apart. */
  lemma BarrierCountersClose(P: Program, run: seq<System>, events: seq<Event>, i: nat, p: nat, q: nat)
    requires AllBarriers(P) && Agreed(P) && CountsRight(P)
    requires IsPlannedRun(P, run, events) && i < |run| && p < P.n && q < P.n && |run[i].procs| == P.n
    ensures Counter(run[i], p) <= Counter(run[i], q) + 1
  {
    PlannedRunKeeps(P, Everyone(), run, events, i);
    assert Everyone()(p, q);
  }

  ghost predicate AllDefault(P: Program) {
    forall k: nat, p: nat :: P.attr(k, p) == Attr(Default, true)
  }

  lemma DefaultIsWellSynced(P: Program)
    requires AllDefault(P)
    ensures AllBarriers(P) && WellSynced(P, Everyone())
  {
    forall k: nat, p: nat, q: nat ensures AgreedAt(P, k, p, q) && CountRightAt(P, k, p) {
      assert P.attr(k, p) == P.attr(k, q) == Attr(Default, true);
    }
    forall k: nat, p: nat ensures P.attr(k, p).barrier {
      assert P.attr(k, p) == Attr(Default, true);
    }
  }

  /**
   * Default syncs, any run at all: whatever the processes issue, when p leaves superstep k every
   * operation that anybody issues in superstep k anywhere in the run, to any process, has been
   * delivered, and p's own operations have completed.
   */
  lemma DefaultRunDelivers(P: Program, run: seq<System>, events: seq<Event>, i: nat, p: nat)
    requires AllDefault(P) && IsRun(P, run, events) && i < |events| && p < P.n
    requires |run[i].procs| == |run[i + 1].procs| == P.n && Counter(run[i + 1], p) != Counter(run[i], p)
    ensures forall q: nat, d: nat :: q < P.n && d < P.n ==>
              run[i].delivered(q, d, Counter(run[i], p)) == IssuedBy(run, events, |events|)(q, d, Counter(run[i], p))
    ensures run[i].procs[p].unacked == 0
  {
    var F := Following(P, run, events);
    EveryRunIsPlanned(P, run, events);
    DefaultIsWellSynced(F);
    PlannedRunDelivers(F, Everyone(), run, events, i, p);
    var k := Counter(run[i], p);
    assert F.attr(k, p) == Attr(Default, true);
    forall q: nat, d: nat | q < P.n && d < P.n
      ensures run[i].delivered(q, d, k) == IssuedBy(run, events, |events|)(q, d, k)
    {
      assert DeliveredAt(F, run[i], q, d, k);
    }
  }

  // ---------------------------------------------------------------- no barrier at all

  /** Cached syncs without barrier; in every superstep q sends p the same number of operations. */
  ghost predicate BarrierFree(P: Program, m: (nat, nat) -> nat) {
    && (forall k: nat, p: nat :: P.attr(k, p) == Attr(Cached, false))
    && forall q: nat, p: nat, k: nat :: P.plan(q, p, k) == m(q, p)
  }

  ghost predicate Bidirectional(n: nat, m: (nat, nat) -> nat) {
    forall p: nat, q: nat :: p < n && q < n && m(p, q) > 0 ==> m(q, p) > 0
  }

  ghost function Talks(n: nat, m: (nat, nat) -> nat): Neighbours {
    (p: nat, q: nat) => p < n && q < n && m(p, q) > 0
  }

  lemma BidirectionalPaces(P: Program, m: (nat, nat) -> nat)
    requires BarrierFree(P, m) && Bidirectional(P.n, m)
    ensures WellSynced(P, Talks(P.n, m))
  {
    forall k: nat, p: nat, q: nat ensures SameModesAt(P, k, p, q) {
      assert P.attr(k, p) == P.attr(k, q) == Attr(Cached, false);
    }
    forall k: nat, p: nat ensures RepeatsAt(P, k, p) {
      assert P.attr(k, p) == Attr(Cached, false);
    }
    CachedRefinesDefault(P);
    forall k: nat, p: nat, q: nat | p < P.n && q < P.n && p != q ensures Hears(P, Talks(P.n, m), p, q, k) {
      assert P.attr(k, p) == Attr(Cached, false);
      assert P.plan(q, p, k) == m(q, p);
    }
  }

  /**
   * Without any barrier but with bidirectional traffic, over unboundedly many supersteps:
   * processes that talk stay within one superstep of each other, and a process leaves a
   * superstep only with everything addressed to it delivered.
   */
  lemma BarrierFreeDelivers(
    P: Program, m: (nat, nat) -> nat, run: seq<System>, events: seq<Event>, i: nat, p: nat, q: nat)
    requires BarrierFree(P, m) && Bidirectional(P.n, m) && IsPlannedRun(P, run, events)
    requires i < |events| && p < P.n && q < P.n && |run[i].procs| == P.n
    ensures m(p, q) > 0 ==> Counter(run[i], p) <= Counter(run[i], q) + 1
    ensures EndsSuperstep(P, run[i], events[i], run[i + 1], p) ==>
              run[i].delivered(q, p, Counter(run[i], p)) == m(q, p)
  {
    BidirectionalPaces(P, m);
    var nb := Talks(P.n, m);
    PlannedRunKeeps(P, nb, run, events, i);
    assert m(p, q) > 0 ==> nb(p, q);
    if EndsSuperstep(P, run[i], events[i], run[i + 1], p) {
      PlannedRunDelivers(P, nb, run, events, i, p);
      assert DeliveredAt(P, run[i], q, p, Counter(run[i], p));
    }
  }
}
