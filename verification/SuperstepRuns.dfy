/**
 * The promises of the superstep protocol, for every run.
 *
 * A run determines its own plan: what its processes issued in each superstep.  The theorems
 * speak of that plan, so nothing limits what a program may issue, to whom, or when.
 */
module SuperstepRuns {
  import opened Tallies
  import opened Verbs
  import opened Superstep
  import opened SuperstepSafety

  // ---------------------------------------------------------------- every run follows a plan

  /** The tally after a step of operations issued. */
  ghost function Counted(s: System, e: Event, t: Tally): Tally {
    match e
    case Issue(q, d) => if q < |s.procs| then Bump(t, q, d, Counter(s, q)) else t
    case _ => t
  }

  /** The operations issued during the first `m` steps of a run. */
  ghost function IssuedBy(run: seq<System>, events: seq<Event>, m: nat): Tally
    requires m <= |events| < |run|
  {
    if m == 0 then (a, b, c) => 0
    else
      Counted(run[m - 1], events[m - 1], IssuedBy(run, events, m - 1))
  }

  /** The program together with what the run issued in all. */
  ghost function Following(P: Program, run: seq<System>, events: seq<Event>): Program
    requires |events| < |run|
  {
    P.(plan := IssuedBy(run, events, |events|))
  }

  ghost predicate Closed(s: System, p: nat, k: nat)
    requires p < |s.procs|
  {
    || k < Counter(s, p)
    || (k == Counter(s, p) && Synced(s.procs[p]))
  }

  /** The per-peer count is what the tally has for the superstep, until the sync takes it; nothing is tallied ahead. */
  ghost predicate CountsAt(s: System, t: Tally, p: nat, d: nat)
    requires p < |s.procs| && d < |s.procs[p].verbs.numMsgsSync|
  {
    && s.procs[p].verbs.numMsgsSync[d] == (if Synced(s.procs[p]) then 0 else t(p, d, Counter(s, p)))
    && forall k: nat :: k > Counter(s, p) ==> t(p, d, k) == 0
  }

  ghost predicate CountsMatch(P: Program, s: System, t: Tally, p: nat)
    requires Formed(P, s) && p < P.n
  {
    var pr := s.procs[p];
    && (pr.verbs.request.isActive ==> pr.stage.Computing?)
    && (pr.verbs.request.secondPhase ==> pr.verbs.request.isActive)
    && forall d: nat :: d < P.n ==> CountsAt(s, t, p, d)
  }

  lemma StepCounts(P: Program, s: System, e: Event, s': System, t: Tally, p: nat)
    requires Step(P, s, e, s') && p < P.n && CountsMatch(P, s, t, p)
    ensures CountsMatch(P, s', Counted(s, e, t), p)
  {
    forall d: nat | d < P.n ensures CountsAt(s', Counted(s, e, t), p, d) {
      assert CountsAt(s, t, p, d);
      if e.Visit? {
        assert Counter(s, p) <= Counter(s', p) <= Counter(s, p) + 1;
      }
    }
  }

  lemma {:induction false} CountsFollow(P: Program, run: seq<System>, events: seq<Event>, j: nat, p: nat)
    requires IsRun(P, run, events) && j <= |events| && p < P.n
    ensures Formed(P, run[j]) && CountsMatch(P, run[j], IssuedBy(run, events, j), p)
  {
    if j > 0 {
      CountsFollow(P, run, events, j - 1, p);
      assert Step(P, run[j - 1], events[j - 1], run[j]);
      FormedKept(P, run[j - 1], events[j - 1], run[j]);
      StepCounts(P, run[j - 1], events[j - 1], run[j], IssuedBy(run, events, j - 1), p);
    }
  }

  lemma ClosedStep(P: Program, s: System, e: Event, s': System, p: nat, k: nat)
    requires Step(P, s, e, s') && p < P.n && Closed(s, p, k)
    ensures Formed(P, s') && Closed(s', p, k)
    ensures e.Issue? ==> e.p != p || Counter(s, p) != k
  {
    FormedKept(P, s, e, s');
  }

  /** Once the sync of superstep k has taken over the counts, the process issues nothing more in it. */
  lemma {:induction false} ClosedStays(P: Program, run: seq<System>, events: seq<Event>, i: nat, j: nat, p: nat, k: nat)
    requires IsRun(P, run, events) && i <= j <= |events| && p < P.n
    requires Formed(P, run[i]) && Closed(run[i], p, k)
    ensures Formed(P, run[j]) && Closed(run[j], p, k)
    ensures forall d: nat :: d < P.n ==> IssuedBy(run, events, j)(p, d, k) == IssuedBy(run, events, i)(p, d, k)
  {
    if i < j {
      ClosedStays(P, run, events, i, j - 1, p, k);
      assert Step(P, run[j - 1], events[j - 1], run[j]);
      ClosedStep(P, run[j - 1], events[j - 1], run[j], p, k);
    }
  }

  lemma {:induction false} IssuedGrows(run: seq<System>, events: seq<Event>, i: nat, j: nat, p: nat, d: nat, k: nat)
    requires i <= j <= |events| < |run|
    ensures IssuedBy(run, events, i)(p, d, k) <= IssuedBy(run, events, j)(p, d, k)
  {
    if i < j {
      IssuedGrows(run, events, i, j - 1, p, d, k);
    }
  }

  lemma {:induction false} EveryRunIsPlanned(P: Program, run: seq<System>, events: seq<Event>)
    requires IsRun(P, run, events)
    ensures IsPlannedRun(Following(P, run, events), run, events)
  {
    var F := Following(P, run, events);
    forall i: nat | i < |events| ensures PlannedStep(F, run[i], events[i], run[i + 1]) {
      assert Step(P, run[i], events[i], run[i + 1]);
      StepIsPlanned(P, run, events, i);
    }
  }

  lemma StepIsPlanned(P: Program, run: seq<System>, events: seq<Event>, i: nat)
    requires IsRun(P, run, events) && i < |events|
    ensures PlannedStep(Following(P, run, events), run[i], events[i], run[i + 1])
  {
    var s, e := run[i], events[i];
    var F := Following(P, run, events);
    assert Step(P, s, e, run[i + 1]);
    assert Step(F, s, e, run[i + 1]);
    match e
    case Issue(p, d) =>
      CountsFollow(P, run, events, i, p);
      assert CountsAt(s, IssuedBy(run, events, i), p, d);
      IssuedGrows(run, events, i + 1, |events|, p, d, Counter(s, p));
    case CallSync(p) => SyncClosesPlan(P, run, events, i, p);
    case _ =>
  }

  lemma SyncClosesPlan(P: Program, run: seq<System>, events: seq<Event>, i: nat, p: nat)
    requires IsRun(P, run, events) && i < |events| && p < P.n
    requires Formed(P, run[i]) && events[i] == CallSync(p)
    ensures IssuedAll(Following(P, run, events), run[i], p)
  {
    assert Step(P, run[i], events[i], run[i + 1]);
    CountsFollow(P, run, events, i, p);
    FormedKept(P, run[i], events[i], run[i + 1]);
    var k, all := Counter(run[i], p), IssuedBy(run, events, |events|);
    ClosedStays(P, run, events, i + 1, |events|, p, k);
    forall d: nat | d < P.n ensures run[i].procs[p].verbs.numMsgsSync[d] == all(p, d, k) {
      assert CountsAt(run[i], IssuedBy(run, events, i), p, d);
      assert IssuedBy(run, events, i + 1)(p, d, k) == IssuedBy(run, events, i)(p, d, k);
    }
  }

  // ---------------------------------------------------------------- the promises

  ghost predicate EndsSuperstep(P: Program, s: System, e: Event, s': System, p: nat) {
    p < P.n && PlannedStep(P, s, e, s') && |s'.procs| == P.n && Counter(s', p) != Counter(s, p)
  }

  lemma OwnDelivered(P: Program, s: System, p: nat, flag: bool)
    requires Core(P, s) && Enabled(P, s, Visit(p, flag)) && Exact(P, s, p)
    requires Counter(Apply(P, s, Visit(p, flag)), p) == Counter(s, p) + 1
    ensures forall q: nat :: q < P.n ==> DeliveredAt(P, s, q, p, Counter(s, p))
    ensures s.procs[p].unacked == 0
  {
    assert LocalInv(P, p, s.procs[p]);
    if Consumed(s.procs[p]) {
      assert Past(s, p, Counter(s, p));
    }
  }

  lemma AllDelivered(P: Program, s: System, p: nat, flag: bool)
    requires Agreed(P) && Inv(P, s) && Enabled(P, s, Visit(p, flag)) && P.attr(Counter(s, p), p).barrier
    requires Counter(Apply(P, s, Visit(p, flag)), p) == Counter(s, p) + 1
    ensures forall q: nat, d: nat :: q < P.n && d < P.n ==> DeliveredAt(P, s, q, d, Counter(s, p))
  {
    assert LocalInv(P, p, s.procs[p]);
    forall q: nat, d: nat | q < P.n && d < P.n ensures DeliveredAt(P, s, q, d, Counter(s, p)) {
      assert LocalInv(P, d, s.procs[d]);
      BarrierReached(P, s, p, d);
    }
  }

  /**
   * When p's counter moves from k to k + 1, every operation addressed to p in superstep k has
   * been delivered, none is in flight, and p's own operations have all completed.  After a
   * barrier this holds for the operations of superstep k to every process.
   */
  lemma SuperstepDelivers(P: Program, s: System, e: Event, s': System, p: nat)
    requires Agreed(P) && Inv(P, s) && EndsSuperstep(P, s, e, s', p)
    ensures forall q: nat :: q < P.n ==> DeliveredAt(P, s, q, p, Counter(s, p))
    ensures s.procs[p].unacked == 0
    ensures P.attr(Counter(s, p), p).barrier ==>
              forall q: nat, d: nat :: q < P.n && d < P.n ==> DeliveredAt(P, s, q, d, Counter(s, p))
  {
    CounterSteps(P, s, e, s', p);
    BucketsExact(P, s, p);
    OwnDelivered(P, s, p, e.flag);
    if P.attr(Counter(s, p), p).barrier {
      AllDelivered(P, s, p, e.flag);
    }
  }

  lemma PlannedRunDelivers(P: Program, nb: Neighbours, run: seq<System>, events: seq<Event>, i: nat, p: nat)
    requires WellSynced(P, nb) && IsPlannedRun(P, run, events) && i < |events|
    requires EndsSuperstep(P, run[i], events[i], run[i + 1], p)
    ensures forall q: nat :: q < P.n ==> DeliveredAt(P, run[i], q, p, Counter(run[i], p))
    ensures run[i].procs[p].unacked == 0
    ensures P.attr(Counter(run[i], p), p).barrier ==>
              forall q: nat, d: nat :: q < P.n && d < P.n ==> DeliveredAt(P, run[i], q, d, Counter(run[i], p))
  {
    RunInv(P, nb, run, events, i);
    SuperstepDelivers(P, run[i], events[i], run[i + 1], p);
  }

  /** An operation to d that is still on its way, or that has arrived but was not waited for yet. */
  ghost predicate Outstanding(s: System, q: nat, d: nat, k: nat)
    requires d < |s.procs|
  {
    s.flight(q, d, k) > 0 || (s.delivered(q, d, k) > 0 && !Past(s, d, k))
  }

  /** Operations that share a bucket of their destination belong to one superstep. */
  ghost predicate BucketsUnmixed(P: Program, s: System)
    requires Formed(P, s)
  {
    forall q: nat, r: nat, d: nat, j: nat, k: nat ::
      (q < P.n && r < P.n && d < P.n && Outstanding(s, q, d, j) && Outstanding(s, r, d, k)
       && j % BUCKETS == k % BUCKETS) ==> j == k
  }

  /** The progress engine is waiting for arrivals on behalf of p. */
  ghost predicate Waits(s: System, p: nat)
    requires p < |s.procs|
  {
    s.procs[p].verbs.request.isActive && !s.procs[p].verbs.request.secondPhase
  }

  /** No bucket holds more arrivals than its sync expects. */
  ghost predicate NeverTooMany(P: Program, s: System)
    requires Formed(P, s)
  {
    forall p: nat :: p < P.n && Waits(s, p) ==>
                       s.procs[p].verbs.recvCounts[Counter(s, p) % BUCKETS] <= s.procs[p].verbs.request.remoteMsgs
  }

  /** What every state of a planned run of a well-synced program satisfies. */
  lemma PlannedRunKeeps(P: Program, nb: Neighbours, run: seq<System>, events: seq<Event>, i: nat)
    requires WellSynced(P, nb) && IsPlannedRun(P, run, events) && i < |run|
    ensures Formed(P, run[i])
    ensures BucketsUnmixed(P, run[i]) && NeverTooMany(P, run[i]) && Close(P, nb, run[i])
  {
    RunInv(P, nb, run, events, i);
    var s := run[i];
    CloseInWindow(P, nb, s);
    WindowUnmixed(P, s);
    forall p: nat | p < P.n && Waits(s, p)
      ensures s.procs[p].verbs.recvCounts[Counter(s, p) % BUCKETS] <= s.procs[p].verbs.request.remoteMsgs
    {
      EnoughIsEverything(P, s, p);
    }
  }

  lemma WindowUnmixed(P: Program, s: System)
    requires Inv(P, s) && InWindow(P, s)
    ensures BucketsUnmixed(P, s)
  {
    forall q: nat, d: nat, k: nat | q < P.n && d < P.n && Outstanding(s, q, d, k)
      ensures Counter(s, d) <= k < Counter(s, d) + BUCKETS
    {
      StepOfOperation(P, s, q, d, k);
      assert WindowOf(P, s, d);
    }
    forall q: nat, r: nat, d: nat, j: nat, k: nat
      | q < P.n && r < P.n && d < P.n
        && Outstanding(s, q, d, j) && Outstanding(s, r, d, k) && j % BUCKETS == k % BUCKETS
      ensures j == k
    {
      OneStepInRange(Counter(s, d), j, k);
    }
  }

  /** Collective calls with the same number are of the same kind on every process. */
  lemma CollectivesMatch(
    P: Program, nb: Neighbours, run: seq<System>, events: seq<Event>, i: nat, p: nat, q: nat, c: nat)
    requires WellSynced(P, nb) && IsPlannedRun(P, run, events) && i < |run| && p < P.n && q < P.n
    requires |run[i].procs| == P.n && c < |run[i].procs[p].calls| && c < |run[i].procs[q].calls|
    ensures SameKind(run[i].procs[p].calls[c], run[i].procs[q].calls[c])
  {
    RunInv(P, nb, run, events, i);
    CallsMatch(P, p, run[i].procs[p], q, run[i].procs[q], c);
  }

  lemma CallsMatch(P: Program, p: nat, a: Process, q: nat, b: Process, c: nat)
    requires Agreed(P) && p < P.n && q < P.n && LocalInv(P, p, a) && LocalInv(P, q, b)
    requires c < |a.calls| && c < |b.calls|
    ensures SameKind(a.calls[c], b.calls[c])
  {
    var k := a.verbs.counter + 1;
    assert Script(P, k, p) == Script(P, a.verbs.counter, p) + StepCalls(P, a.verbs.counter, p);
    ScriptsAlike(P, k, p, q);
    CallIsScripted(P, p, a, k, c);
    CallIsScripted(P, q, b, k, c);
  }
}
