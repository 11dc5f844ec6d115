/**
 * What holds barrier-free supersteps together.  The buckets of a process tell supersteps apart only
 * modulo BUCKETS, so with several senders none of them must run that far ahead.  What holds a sender
 * back is a chain of messages in the other direction: if, for every p that sends to q besides some
 * other process, fewer than BUCKETS sends lead from q back to p, every ordered run delivers.  A
 * process that hears from one sender only needs nothing of the kind, since what it gets is in order.
 */
module SuperstepWindow {
  import opened Arithmetic
  import opened Tallies
  import opened Verbs
  import opened Superstep
  import opened SuperstepSafety
  import opened SuperstepRuns
  import opened SuperstepPrograms
  import opened SuperstepLimits

  /** At most `l` sends lead from q to x. */
  ghost predicate Within(n: nat, m: (nat, nat) -> nat, q: nat, x: nat, l: nat)
    decreases l, 1
  {
    q == x || (l > 0 && exists y: nat :: LastHop(n, m, q, y, x, l))
  }

  /** One way is over y. */
  ghost predicate LastHop(n: nat, m: (nat, nat) -> nat, q: nat, y: nat, x: nat, l: nat)
    requires l > 0
    decreases l, 0
  {
    y < n && m(y, x) > 0 && Within(n, m, q, y, l - 1)
  }

  /** Both p and some other process send to q. */
  ghost predicate Rivals(n: nat, m: (nat, nat) -> nat, p: nat, late: nat, q: nat) {
    p < n && late < n && p != late && m(p, q) > 0 && m(late, q) > 0
  }

  ghost predicate HasRival(n: nat, m: (nat, nat) -> nat, p: nat, q: nat) {
    exists late: nat :: Rivals(n, m, p, late, q)
  }

  ghost predicate ShortWayBack(n: nat, m: (nat, nat) -> nat, p: nat, q: nat) {
    HasRival(n, m, p, q) ==> Within(n, m, q, p, BUCKETS - 1)
  }

  ghost predicate ShortWaysBack(n: nat, m: (nat, nat) -> nat) {
    forall p: nat, q: nat :: p < n && q < n ==> ShortWayBack(n, m, p, q)
  }

  /** More than one process sends to q. */
  ghost predicate Crowded(n: nat, m: (nat, nat) -> nat, q: nat) {
    exists p: nat, late: nat :: Rivals(n, m, p, late, q)
  }

  lemma CrowdedHasRivals(n: nat, m: (nat, nat) -> nat, p: nat, q: nat)
    requires Crowded(n, m, q) && p < n && m(p, q) > 0
    ensures HasRival(n, m, p, q)
  {
    var a: nat, b: nat :| Rivals(n, m, a, b, q);
    assert Rivals(n, m, p, if p == a then b else a, q);
  }

  // ---------------------------------------------------------------- how far ahead a process may be

  /** Nobody is more than one superstep ahead of a process that sends to it. */
  ghost predicate Trails(P: Program, m: (nat, nat) -> nat, s: System)
    requires Formed(P, s)
  {
    forall x: nat, y: nat :: x < P.n && y < P.n && m(x, y) > 0 ==> Counter(s, y) <= Counter(s, x) + 1
  }

  lemma {:induction false} TrailsAlong(P: Program, m: (nat, nat) -> nat, s: System, q: nat, x: nat, l: nat)
    requires Formed(P, s) && Trails(P, m, s) && q < P.n && x < P.n && Within(P.n, m, q, x, l)
    ensures Counter(s, x) <= Counter(s, q) + l
    decreases l
  {
    if q != x {
      var y: nat :| LastHop(P.n, m, q, y, x, l);
      TrailsAlong(P, m, s, q, y, l - 1);
    }
  }

  lemma ShortWaysInWindow(P: Program, m: (nat, nat) -> nat, s: System, d: nat)
    requires BarrierFree(P, m) && ShortWaysBack(P.n, m) && Core(P, s) && Trails(P, m, s)
    requires d < P.n && Crowded(P.n, m, d)
    ensures WindowOf(P, s, d)
  {
    forall q: nat, k: nat | q < P.n && s.flight(q, d, k) + s.delivered(q, d, k) > 0
      ensures k < Counter(s, d) + BUCKETS
    {
      StepOfOperation(P, s, q, d, k);
      assert P.plan(q, d, k) == m(q, d);
      CrowdedHasRivals(P.n, m, q, d);
      assert ShortWayBack(P.n, m, q, d);
      TrailsAlong(P, m, s, d, q, BUCKETS - 1);
    }
  }

  // ---------------------------------------------------------------- a single sender

  function Sum(c: seq<nat>): nat {
    if c == [] then 0 else Sum(c[..|c| - 1]) + c[|c| - 1]
  }

  lemma {:induction false} SumUpdate(c: seq<nat>, b: nat, v: nat)
    requires b < |c|
    ensures Sum(c[b := v]) + c[b] == Sum(c) + v && c[b] <= Sum(c)
  {
    var n := |c| - 1;
    if b == n {
      assert c[b := v][..n] == c[..n];
    } else {
      SumUpdate(c[..n], b, v);
      assert c[b := v][..n] == c[..n][b := v];
    }
  }

  lemma {:induction false} SumZeros(n: nat)
    ensures Sum(Zeros(n)) == 0
  {
    if n > 0 {
      SumZeros(n - 1);
      assert Zeros(n)[..n - 1] == Zeros(n - 1);
    }
  }

  /** What has arrived of one that sends c operations in every superstep, in order. */
  ghost function UpTo(c: nat, front: nat, rest: nat, k: nat): nat {
    if k < front then c else if k == front then rest else 0
  }

  /**
   * The first `front` supersteps of p have arrived in full and `rest` operations of the next one;
   * what the syncs have taken out is still missing in all buckets together, and nothing else.
   */
  ghost predicate FrontAt(P: Program, m: (nat, nat) -> nat, s: System, p: nat, q: nat, front: nat, rest: nat)
    requires Formed(P, s) && q < P.n
  {
    && rest < m(p, q)
    && (forall k: nat :: s.delivered(p, q, k) == UpTo(m(p, q), front, rest, k))
    && Sum(s.procs[q].verbs.recvCounts) + m(p, q) * Counter(s, q) == m(p, q) * front + rest
  }

  ghost predicate HasFront(P: Program, m: (nat, nat) -> nat, s: System, p: nat, q: nat)
    requires Formed(P, s) && q < P.n
  {
    exists front: nat, rest: nat :: FrontAt(P, m, s, p, q, front, rest)
  }

  ghost predicate QueueFits(P: Program, m: (nat, nat) -> nat, s: System, q: nat)
    requires Formed(P, s) && q < P.n
  {
    forall p: nat :: p < P.n && m(p, q) > 0 ==> HasFront(P, m, s, p, q)
  }

  lemma AheadOf(c: nat, front: nat, rest: nat, k: nat)
    requires rest < c && c * front + rest >= c + c * k
    ensures k < front
  {
    if front < k {
      TimesGrows(front, k, c);
    }
  }

  lemma NextMultiple(c: nat, k: nat)
    ensures c * (k + 1) == c * k + c
  {
  }

  /** What a lone sender addresses to q is all that comes in. */
  lemma {:induction false} OnlyFrom(t: Tally, n: nat, p: nat, q: nat, k: nat)
    requires forall r: nat :: r < n && r != p ==> t(r, q, k) == 0
    ensures Incoming(t, n, q, k) == if p < n then t(p, q, k) else 0
  {
    if n > 0 {
      OnlyFrom(t, n - 1, p, q, k);
    }
  }

  /** Nobody sends to q, or p alone. */
  ghost predicate OnlySender(n: nat, m: (nat, nat) -> nat, p: nat, q: nat) {
    forall r: nat :: r < n && r != p ==> m(r, q) == 0
  }

  /** A bucket that holds enough is enough, even if it holds several supersteps. */
  lemma QueueExact(P: Program, m: (nat, nat) -> nat, s: System, q: nat)
    requires BarrierFree(P, m) && Core(P, s) && q < P.n && !Crowded(P.n, m, q) && QueueFits(P, m, s, q)
    ensures Exact(P, s, q)
  {
    var v, k := s.procs[q].verbs, Counter(s, q);
    assert LocalInv(P, q, s.procs[q]);
    if v.request.isActive && !v.request.secondPhase && Arrived(v) {
      forall p: nat | p < P.n ensures DeliveredAt(P, s, p, q, k) {
        assert ConservedAt(P, s, p, q, k) && LocalInv(P, p, s.procs[p]) && P.plan(p, q, k) == m(p, q);
        if m(p, q) > 0 {
          SoleSender(P, m, p, q, k);
          var front: nat, rest: nat :| FrontAt(P, m, s, p, q, front, rest);
          SumUpdate(v.recvCounts, k % BUCKETS, 0);
          AheadOf(m(p, q), front, rest, k);
        }
      }
    }
  }

  lemma SoleSender(P: Program, m: (nat, nat) -> nat, p: nat, q: nat, k: nat)
    requires BarrierFree(P, m) && p < P.n && m(p, q) > 0 && !Crowded(P.n, m, q)
    ensures OnlySender(P.n, m, p, q) && Incoming(P.plan, P.n, q, k) == m(p, q)
  {
    forall r: nat | r < P.n && r != p ensures m(r, q) == 0 && P.plan(r, q, k) == 0 {
      assert P.plan(r, q, k) == m(r, q);
      assert !Rivals(P.n, m, p, r, q);
    }
    OnlyFrom(P.plan, P.n, p, q, k);
    assert P.plan(p, q, k) == m(p, q);
  }

  // ---------------------------------------------------------------- what every ordered run keeps

  /** What holds of the buckets of q, depending on how many send to it. */
  ghost predicate ReceiverFits(P: Program, m: (nat, nat) -> nat, s: System, q: nat)
    requires Formed(P, s) && q < P.n
  {
    if Crowded(P.n, m, q) then BucketsInv(P, s, q) else QueueFits(P, m, s, q)
  }

  ghost predicate Fits(P: Program, m: (nat, nat) -> nat, s: System) {
    Core(P, s) && Trails(P, m, s) && forall q: nat :: q < P.n ==> ReceiverFits(P, m, s, q)
  }

  lemma FitsExact(P: Program, m: (nat, nat) -> nat, s: System, q: nat)
    requires BarrierFree(P, m) && Fits(P, m, s) && q < P.n
    ensures Exact(P, s, q)
  {
    assert ReceiverFits(P, m, s, q);
    if Crowded(P.n, m, q) {
      BucketsExact(P, s, q);
    } else {
      QueueExact(P, m, s, q);
    }
  }

  /** A delivery moves the front. */
  lemma DeliverMoves(P: Program, m: (nat, nat) -> nat, s: System, p: nat, q: nat, k: nat)
    requires BarrierFree(P, m) && Core(P, s) && Enabled(P, s, Deliver(p, q, k)) && Clear(s, p, q, k)
    requires m(p, q) > 0 && HasFront(P, m, s, p, q)
    ensures HasFront(P, m, Apply(P, s, Deliver(p, q, k)), p, q)
  {
    var t, c := Apply(P, s, Deliver(p, q, k)), m(p, q);
    var front: nat, rest: nat :| FrontAt(P, m, s, p, q, front, rest);
    FrontIsNext(P, m, s, p, q, k, front, rest);
    var counts := s.procs[q].verbs.recvCounts;
    SumUpdate(counts, k % BUCKETS, counts[k % BUCKETS] + 1);
    NextMultiple(c, front);
    if rest + 1 == c {
      assert FrontAt(P, m, t, p, q, front + 1, 0);
    } else {
      assert FrontAt(P, m, t, p, q, front, rest + 1);
    }
  }

  lemma FrontIsNext(
    P: Program, m: (nat, nat) -> nat, s: System, p: nat, q: nat, k: nat, front: nat, rest: nat)
    requires BarrierFree(P, m) && Core(P, s) && Enabled(P, s, Deliver(p, q, k)) && Clear(s, p, q, k)
    requires FrontAt(P, m, s, p, q, front, rest)
    ensures k == front
  {
    assert LocalInv(P, p, s.procs[p]);
    assert ConservedAt(P, s, p, q, k) && P.plan(p, q, k) == m(p, q);
    assert ConservedAt(P, s, p, q, front) && P.plan(p, q, front) == m(p, q);
  }

  /** The end of a superstep takes its operations out of the buckets. */
  lemma FinishMoves(P: Program, m: (nat, nat) -> nat, s: System, p: nat, q: nat, flag: bool)
    requires BarrierFree(P, m) && Core(P, s) && Enabled(P, s, Visit(q, flag)) && !Crowded(P.n, m, q)
    requires p < P.n && m(p, q) > 0 && HasFront(P, m, s, p, q)
    ensures HasFront(P, m, Apply(P, s, Visit(q, flag)), p, q)
  {
    var t := Apply(P, s, Visit(q, flag));
    var front: nat, rest: nat :| FrontAt(P, m, s, p, q, front, rest);
    VisitSums(P, m, s, p, q, flag);
    assert FrontAt(P, m, t, p, q, front, rest);
  }

  lemma VisitSums(P: Program, m: (nat, nat) -> nat, s: System, p: nat, q: nat, flag: bool)
    requires BarrierFree(P, m) && Core(P, s) && Enabled(P, s, Visit(q, flag)) && !Crowded(P.n, m, q)
    requires p < P.n && m(p, q) > 0
    ensures var t := Apply(P, s, Visit(q, flag));
            Sum(t.procs[q].verbs.recvCounts) + m(p, q) * Counter(t, q)
            == Sum(s.procs[q].verbs.recvCounts) + m(p, q) * Counter(s, q)
  {
    var v := s.procs[q].verbs;
    assert v.request.remoteMsgs == m(p, q) && !v.request.withBarrier && !v.request.secondPhase by {
      assert LocalInv(P, q, s.procs[q]) && P.attr(v.counter, q) == Attr(Cached, false);
      SoleSender(P, m, p, q, v.counter);
    }
    if Arrived(v) {
      var b := v.counter % BUCKETS;
      SumUpdate(v.recvCounts, b, v.recvCounts[b] - m(p, q));
      NextMultiple(m(p, q), v.counter);
    }
  }

  /** Steps of others, and deliveries to others, do not touch the front. */
  lemma FrontStays(P: Program, m: (nat, nat) -> nat, s: System, t: System, p: nat, q: nat)
    requires Formed(P, s) && Formed(P, t) && q < P.n && HasFront(P, m, s, p, q)
    requires forall k: nat :: t.delivered(p, q, k) == s.delivered(p, q, k)
    requires t.procs[q].verbs.recvCounts == s.procs[q].verbs.recvCounts && Counter(t, q) == Counter(s, q)
    ensures HasFront(P, m, t, p, q)
  {
    var front: nat, rest: nat :| FrontAt(P, m, s, p, q, front, rest);
    assert FrontAt(P, m, t, p, q, front, rest);
  }

  lemma StepKeepsFront(
    P: Program, m: (nat, nat) -> nat, s: System, e: Event, t: System, p: nat, q: nat)
    requires BarrierFree(P, m) && Core(P, s) && Step(P, s, e, t) && InOrder(s, e) && Formed(P, t)
    requires q < P.n && !Crowded(P.n, m, q) && p < P.n && m(p, q) > 0 && HasFront(P, m, s, p, q)
    ensures HasFront(P, m, t, p, q)
  {
    if e.Deliver? && e.dst == q {
      StepOfOperation(P, s, e.src, q, e.step);
      assert P.plan(e.src, q, e.step) == m(e.src, q);
      SoleSender(P, m, p, q, e.step);
      DeliverMoves(P, m, s, p, q, e.step);
    } else if e.Visit? && e.p == q {
      FinishMoves(P, m, s, p, q, e.flag);
    } else {
      CounterSteps(P, s, e, t, q);
      FrontStays(P, m, s, t, p, q);
    }
  }

  /** A process that leaves a superstep has heard in it from everybody who sends to it. */
  lemma SendersReached(P: Program, m: (nat, nat) -> nat, s: System, p: nat, flag: bool, x: nat)
    requires BarrierFree(P, m) && Core(P, s) && Enabled(P, s, Visit(p, flag)) && Exact(P, s, p)
    requires x < P.n && m(x, p) > 0
    requires Counter(Apply(P, s, Visit(p, flag)), p) == Counter(s, p) + 1
    ensures Counter(s, p) <= Counter(s, x)
  {
    var k := Counter(s, p);
    assert LocalInv(P, p, s.procs[p]) && LocalInv(P, x, s.procs[x]);
    assert P.attr(k, p) == Attr(Cached, false) && P.plan(x, p, k) == m(x, p);
    assert DeliveredAt(P, s, x, p, k) && ConservedAt(P, s, x, p, k);
  }

  lemma StepKeepsTrails(P: Program, m: (nat, nat) -> nat, s: System, e: Event, s': System)
    requires BarrierFree(P, m) && Fits(P, m, s) && Step(P, s, e, s') && Formed(P, s')
    ensures Trails(P, m, s')
  {
    forall x: nat, y: nat | x < P.n && y < P.n && m(x, y) > 0 ensures Counter(s', y) <= Counter(s', x) + 1 {
      CounterSteps(P, s, e, s', x);
      CounterSteps(P, s, e, s', y);
      if Counter(s', y) == Counter(s, y) + 1 {
        FitsExact(P, m, s, y);
        SendersReached(P, m, s, y, e.flag, x);
      }
    }
  }

  lemma StepKeepsFits(P: Program, m: (nat, nat) -> nat, s: System, e: Event, s': System)
    requires BarrierFree(P, m) && ShortWaysBack(P.n, m)
    requires Fits(P, m, s) && PlannedStep(P, s, e, s') && InOrder(s, e)
    ensures Fits(P, m, s')
  {
    CachedProgramsCount(P, m);
    if e.Visit? {
      FitsExact(P, m, s, e.p);
    }
    StepKeepsCore(P, s, e, s');
    StepKeepsTrails(P, m, s, e, s');
    forall q: nat | q < P.n ensures ReceiverFits(P, m, s', q) {
      assert ReceiverFits(P, m, s, q);
      if Crowded(P.n, m, q) {
        ShortWaysInWindow(P, m, s, q);
      } else {
        forall p: nat | p < P.n && m(p, q) > 0 ensures HasFront(P, m, s', p, q) {
          assert HasFront(P, m, s, p, q);
          StepKeepsFront(P, m, s, e, s', p, q);
        }
      }
    }
  }

  lemma InitFits(P: Program, m: (nat, nat) -> nat)
    ensures Fits(P, m, Init(P))
  {
    var s := Init(P);
    InitInv(P);
    SumZeros(BUCKETS);
    forall q: nat, p: nat | q < P.n && p < P.n && m(p, q) > 0 ensures HasFront(P, m, s, p, q) {
      assert FrontAt(P, m, s, p, q, 0, 0);
    }
    forall q: nat | q < P.n ensures ReceiverFits(P, m, s, q) {
      assert BucketsInv(P, s, q);
    }
  }

  lemma {:induction false} RunFits(
    P: Program, m: (nat, nat) -> nat, run: seq<System>, events: seq<Event>, i: nat)
    requires BarrierFree(P, m) && ShortWaysBack(P.n, m)
    requires IsPlannedRun(P, run, events) && IsOrdered(run, events) && i < |run|
    ensures Fits(P, m, run[i])
  {
    if i == 0 {
      InitFits(P, m);
    } else {
      RunFits(P, m, run, events, i - 1);
      StepKeepsFits(P, m, run[i - 1], events[i - 1], run[i]);
    }
  }

  // ---------------------------------------------------------------- delivery

  /** If step i ends a superstep of p, everything addressed to p in it has been delivered. */
  ghost predicate DeliversAt(P: Program, run: seq<System>, events: seq<Event>, i: nat, p: nat)
    requires i < |events| < |run|
  {
    EndsSuperstep(P, run[i], events[i], run[i + 1], p) ==>
      forall q: nat :: q < P.n ==> DeliveredAt(P, run[i], q, p, Counter(run[i], p))
  }

  ghost predicate AlwaysDelivers(P: Program) {
    forall run: seq<System>, events: seq<Event>, i: nat, p: nat ::
      IsPlannedRun(P, run, events) && IsOrdered(run, events) && i < |events| ==> DeliversAt(P, run, events, i, p)
  }

  lemma ShortWaysDeliver(P: Program, m: (nat, nat) -> nat)
    requires BarrierFree(P, m) && ShortWaysBack(P.n, m)
    ensures AlwaysDelivers(P)
  {
    forall run: seq<System>, events: seq<Event>, i: nat, p: nat
      | IsPlannedRun(P, run, events) && IsOrdered(run, events) && i < |events|
      ensures DeliversAt(P, run, events, i, p)
    {
      if EndsSuperstep(P, run[i], events[i], run[i + 1], p) {
        RunFits(P, m, run, events, i);
        FitsExact(P, m, run[i], p);
        CounterSteps(P, run[i], events[i], run[i + 1], p);
        OwnDelivered(P, run[i], p, events[i].flag);
      }
    }
  }

  /** A process that hears from at most one other needs no way back at all, whatever the distance. */
  lemma SingleSendersDeliver(P: Program, m: (nat, nat) -> nat)
    requires BarrierFree(P, m) && forall q: nat :: q < P.n ==> !Crowded(P.n, m, q)
    ensures AlwaysDelivers(P)
  {
    forall p: nat, q: nat | p < P.n && q < P.n ensures ShortWayBack(P.n, m, p, q) {
      assert !Crowded(P.n, m, q);
    }
    ShortWaysDeliver(P, m);
  }
}
