/**
 * Exactly when barrier-free supersteps keep their pace, and exactly when they deliver: what is
 * enough in SuperstepPrograms and SuperstepWindow is also needed, by runs that drift apart.
 */
module SuperstepDelivery {
  import opened Tallies
  import opened Verbs
  import opened Superstep
  import opened SuperstepSafety
  import opened SuperstepRuns
  import opened SuperstepPrograms
  import opened SuperstepLimits
  import opened SuperstepWindow

  // ---------------------------------------------------------------- the pace

  /** The shortest such run: q waits in superstep 0 while p goes on to superstep 2. */
  lemma OneWayDrifts(P: Program, m: (nat, nat) -> nat, p: nat, q: nat) returns (s: System)
    requires BarrierFree(P, m) && p < P.n && q < P.n && m(p, q) > 0 && m(q, p) == 0
    ensures Reachable(P, s, true) && Formed(P, s) && Counter(s, p) == Counter(s, q) + 2
  {
    CachedProgramsCount(P, m);
    var level := (x: nat) => if x == q then 0 else if x == p then 2 else 1;
    var t := Climb(P, m, level, 1);
    forall r: nat | r < P.n ensures Waiting(t, level, 1, r) {
      assert Climbed(t, level, 1, r);
    }
    s := Outrun(P, m, level, t, 1, p);
    assert Climbed(t, level, 1, q) && SamePlace(t, s, q);
    var run, events :| ShortRun(P, run, events, s);
    assert EndsIn(P, run, events, s, true);
  }

  /** In every reachable state, processes that send to others are at most one superstep ahead. */
  ghost predicate SendersStayClose(P: Program, m: (nat, nat) -> nat, ordered: bool) {
    forall s :: Reachable(P, s, ordered) && Formed(P, s) ==> Close(P, Talks(P.n, m), s)
  }

  /**
   * Barrier-free supersteps keep their pace exactly when all traffic is bidirectional, whether or
   * not the network keeps the connections in order.
   */
  lemma PaceNeedsBothDirections(P: Program, m: (nat, nat) -> nat, ordered: bool)
    requires BarrierFree(P, m)
    ensures SendersStayClose(P, m, ordered) <==> Bidirectional(P.n, m)
  {
    if Bidirectional(P.n, m) {
      BidirectionalPaces(P, m);
      forall s | Reachable(P, s, ordered) && Formed(P, s) ensures Close(P, Talks(P.n, m), s) {
        var run, events :| EndsIn(P, run, events, s, ordered);
        PlannedRunKeeps(P, Talks(P.n, m), run, events, |events|);
      }
    } else {
      var p: nat, q: nat :| p < P.n && q < P.n && m(p, q) > 0 && m(q, p) == 0;
      var s := OneWayDrifts(P, m, p, q);
      var run, events :| EndsIn(P, run, events, s, true);
      assert EndsIn(P, run, events, s, ordered);
      assert Talks(P.n, m)(p, q);
    }
  }

  // ---------------------------------------------------------------- delivery

  /** How many sends lead from q to x, or l if fewer than l do not. */
  ghost function Distance(n: nat, m: (nat, nat) -> nat, q: nat, x: nat, l: nat): (d: nat)
    ensures d <= l
  {
    if l == 0 then 0 else if Within(n, m, q, x, l - 1) then Distance(n, m, q, x, l - 1) else l
  }

  lemma {:induction false} WithinGrows(n: nat, m: (nat, nat) -> nat, q: nat, x: nat, i: nat)
    requires Within(n, m, q, x, i)
    ensures Within(n, m, q, x, i + 1)
    decreases i
  {
    if q != x {
      var y: nat :| LastHop(n, m, q, y, x, i);
      WithinGrows(n, m, q, y, i - 1);
      assert LastHop(n, m, q, y, x, i + 1);
    }
  }

  lemma {:induction false} DistanceBelow(n: nat, m: (nat, nat) -> nat, q: nat, x: nat, i: nat, l: nat)
    requires Within(n, m, q, x, i)
    ensures Distance(n, m, q, x, l) <= i
    decreases l
  {
    if l > i {
      WithinUpTo(n, m, q, x, i, l - 1);
      DistanceBelow(n, m, q, x, i, l - 1);
    }
  }

  lemma {:induction false} WithinUpTo(n: nat, m: (nat, nat) -> nat, q: nat, x: nat, i: nat, j: nat)
    requires Within(n, m, q, x, i) && i <= j
    ensures Within(n, m, q, x, j)
    decreases j
  {
    if i < j {
      WithinUpTo(n, m, q, x, i, j - 1);
      WithinGrows(n, m, q, x, j - 1);
    }
  }

  lemma {:induction false} DistanceReached(n: nat, m: (nat, nat) -> nat, q: nat, x: nat, l: nat)
    requires Distance(n, m, q, x, l) < l
    ensures Within(n, m, q, x, Distance(n, m, q, x, l))
  {
    if Distance(n, m, q, x, l - 1) < l - 1 {
      DistanceReached(n, m, q, x, l - 1);
    }
  }

  lemma DistanceIsLevel(n: nat, m: (nat, nat) -> nat, q: nat, l: nat, level: nat -> nat)
    requires forall x: nat :: level(x) == Distance(n, m, q, x, l)
    ensures Levels(n, m, level) && level(q) == 0
  {
    DistanceBelow(n, m, q, q, 0, l);
    forall x: nat, y: nat | x < n && y < n && m(x, y) > 0 ensures level(y) <= level(x) + 1 {
      if level(x) < l {
        DistanceReached(n, m, q, x, l);
        assert LastHop(n, m, q, x, y, level(x) + 1);
        DistanceBelow(n, m, q, y, level(x) + 1, l);
      }
    }
  }

  /**
   * Process q waits in superstep 0 for a last operation of `late`, while p has come to superstep
   * BUCKETS and nothing p has sent to q is on its way.
   */
  ghost predicate AtTheBrink(P: Program, s: System, p: nat, q: nat, late: nat) {
    && Inv(P, s) && p < P.n && q < P.n && late < P.n && p != q && p != late
    && IdleAt(s, p, BUCKETS) && NothingIssued(P, s, p) && WaitingAt(s, q, 0) && Clear(s, p, q, BUCKETS)
    && forall r: nat :: r < P.n ==> s.delivered(r, q, 0) + (if r == late then 1 else 0) == P.plan(r, q, 0)
  }

  /** The network delivers what p has sent to d in the supersteps before `upto`, in order. */
  lemma DeliverUpTo(P: Program, s: System, p: nat, d: nat, from: nat, upto: nat) returns (s': System)
    requires Ready(P, s) && p < P.n && d < P.n && from <= upto && Clear(s, p, d, from)
    ensures Ready(P, s') && SameElsewhere(s, s', d) && SamePlace(s, s', d) && Clear(s', p, d, upto)
    ensures forall r: nat, j: nat :: r != p ==> s'.flight(r, d, j) == s.flight(r, d, j)
    decreases upto - from
  {
    if from == upto {
      s' := s;
    } else {
      var t := DeliverFrom(P, s, p, d, from, 0);
      forall j: nat | j < from + 1 ensures t.flight(p, d, j) == 0 {
        assert j != from ==> t.flight(p, d, j) == s.flight(p, d, j);
      }
      s' := DeliverUpTo(P, t, p, d, from + 1, upto);
      Chain(s, t, s', d);
    }
  }

  /** Everybody waits where its distance from q lets it get to; to q nothing has been delivered. */
  lemma SpreadOut(P: Program, m: (nat, nat) -> nat, level: nat -> nat, q: nat, last: nat) returns (t: System)
    requires BarrierFree(P, m) && Levels(P.n, m, level) && q < P.n && level(q) == 0 && last < BUCKETS
    ensures Ready(P, t) && WaitingAt(t, q, 0)
    ensures forall r: nat :: r < P.n ==> Waiting(t, level, last, r) && t.flight(r, q, 0) == m(r, q)
  {
    CachedProgramsCount(P, m);
    t := Climb(P, m, level, last);
    assert Climbed(t, level, last, q);
    forall r: nat | r < P.n ensures Waiting(t, level, last, r) && t.flight(r, q, 0) == m(r, q) {
      assert Climbed(t, level, last, r);
      AllInFlight(P, m, t, q, r);
    }
  }

  /** All but the last operation of `late` come to q, and then whatever p has sent to it. */
  lemma FillUp(P: Program, m: (nat, nat) -> nat, level: nat -> nat, t: System, p: nat, q: nat, late: nat, last: nat)
    returns (u: System)
    requires BarrierFree(P, m) && Ready(P, t) && Rivals(P.n, m, p, late, q) && q < P.n && last < BUCKETS
    requires WaitingAt(t, q, 0)
    requires forall r: nat :: r < P.n ==> Waiting(t, level, last, r) && t.flight(r, q, 0) == m(r, q)
    ensures Ready(P, u) && WaitingAt(u, q, 0) && Clear(u, p, q, BUCKETS)
    ensures forall r: nat :: r < P.n ==> Waiting(u, level, last, r)
    ensures forall r: nat :: r < P.n ==> u.flight(r, q, 0) == if r == late then 1 else 0
  {
    var s := DeliverTo(P, t, q, 0, P.n, late);
    u := DeliverUpTo(P, s, p, q, 1, BUCKETS);
    Chain(t, s, u, q);
    forall r: nat | r < P.n ensures Waiting(u, level, last, r) {
      assert Waiting(t, level, last, r) && (r != q ==> SamePlace(t, u, r));
    }
  }

  /** A run may come there if no short way leads from q to p. */
  lemma ReachBrink(P: Program, m: (nat, nat) -> nat, p: nat, q: nat, late: nat) returns (s: System)
    requires BarrierFree(P, m) && Rivals(P.n, m, p, late, q) && q < P.n
    requires !Within(P.n, m, q, p, BUCKETS - 1)
    ensures Early(P, s) && AtTheBrink(P, s, p, q, late)
  {
    var level := (x: nat) => Distance(P.n, m, q, x, BUCKETS);
    DistanceIsLevel(P.n, m, q, BUCKETS, level);
    var last: nat := BUCKETS - 1;
    var t := SpreadOut(P, m, level, q, last);
    var u := FillUp(P, m, level, t, p, q, late, last);
    s := Outrun(P, m, level, u, last, p);
    assert SamePlace(u, s, q) && SameArrivals(u, s, q) && Waiting(u, level, last, p);
    EarlyInv(P, s);
    forall r: nat | r < P.n ensures s.delivered(r, q, 0) + (if r == late then 1 else 0) == P.plan(r, q, 0) {
      assert Waiting(u, level, last, r);
      SentInZero(P, m, u, q, r);
    }
    StaysClear(P, u, s, p, q, last);
  }

  /** Nothing of p is on its way to q, and nothing has been added. */
  lemma StaysClear(P: Program, u: System, s: System, p: nat, q: nat, last: nat)
    requires Ready(P, u) && Inv(P, s) && p < P.n && q < P.n
    requires WaitingAt(u, p, last) && Clear(u, p, q, last + 1) && SameArrivals(u, s, q)
    requires IdleAt(s, p, last + 1)
    ensures Clear(s, p, q, last + 1)
  {
    EarlyInv(P, u);
    forall j: nat | j < last + 1 ensures s.flight(p, q, j) == 0 {
      assert ConservedAt(P, u, p, q, j) && ConservedAt(P, s, p, q, j);
    }
  }

  /** Everything process r issues in superstep 0 has been issued once r waits. */
  lemma SentInZero(P: Program, m: (nat, nat) -> nat, s: System, q: nat, r: nat)
    requires BarrierFree(P, m) && Ready(P, s) && q < P.n && r < P.n && s.procs[r].verbs.request.isActive
    ensures s.flight(r, q, 0) + s.delivered(r, q, 0) == m(r, q)
  {
    EarlyInv(P, s);
    assert ConservedAt(P, s, r, q, 0);
  }

  lemma AllInFlight(P: Program, m: (nat, nat) -> nat, s: System, q: nat, r: nat)
    requires BarrierFree(P, m) && Ready(P, s) && q < P.n && r < P.n && s.procs[r].verbs.request.isActive
    requires Untouched(s, q)
    ensures s.flight(r, q, 0) == m(r, q)
  {
    SentInZero(P, m, s, q, r);
  }

  /** From there p addresses one operation of superstep BUCKETS to q, and q takes it for the missing one. */
  lemma Overtake(P: Program, m: (nat, nat) -> nat, s: System, p: nat, q: nat, late: nat)
    returns (t: System, t': System)
    requires BarrierFree(P, m) && AtTheBrink(P, s, p, q, late) && m(p, q) > 0
    ensures Step(P, s, Issue(p, q), t) && Planned(P, s, Issue(p, q))
    ensures Step(P, t, Deliver(p, q, BUCKETS), t') && InOrder(t, Deliver(p, q, BUCKETS))
    ensures EndsSuperstep(P, t', Visit(q, false), Apply(P, t', Visit(q, false)), q)
    ensures Counter(t', q) == 0 && t'.delivered(late, q, 0) < P.plan(late, q, 0) && t'.delivered(p, q, BUCKETS) > 0
  {
    assert LocalInv(P, p, s.procs[p]) && LocalInv(P, q, s.procs[q]) && BucketsInv(P, s, q);
    assert P.plan(p, q, BUCKETS) == m(p, q) && P.attr(0, q) == Attr(Cached, false);
    t := Apply(P, s, Issue(p, q));
    assert t.flight(p, q, BUCKETS) > 0;
    t' := Apply(P, t, Deliver(p, q, BUCKETS));
    StepInWindow(0, 0);
    assert s.procs[q].verbs.recvCounts[0] == Bucket(P, s, q, 0) == Incoming(s.delivered, P.n, q, 0);
    IncomingBump(s.delivered, P.n, late, q, 0);
    IncomingEqual(Bump(s.delivered, late, q, 0), P.plan, P.n, q, 0, 0);
  }

  /**
   * If p and another process send to q and no short way leads from q back to p, some ordered run
   * lets q leave superstep 0 although an operation of the other one has not arrived: one of p from
   * superstep BUCKETS stands in for it.
   */
  lemma WrapsAround(P: Program, m: (nat, nat) -> nat, p: nat, q: nat, late: nat)
    returns (run: seq<System>, events: seq<Event>, i: nat)
    requires BarrierFree(P, m) && Rivals(P.n, m, p, late, q) && q < P.n
    requires !Within(P.n, m, q, p, BUCKETS - 1)
    ensures IsPlannedRun(P, run, events) && IsOrdered(run, events) && i < |events|
    ensures EndsSuperstep(P, run[i], events[i], run[i + 1], q) && Counter(run[i], q) == 0
    ensures run[i].delivered(late, q, 0) < m(late, q) && run[i].delivered(p, q, BUCKETS) > 0
  {
    var s := ReachBrink(P, m, p, q, late);
    var before, steps :| ShortRun(P, before, steps, s);
    var t, t' := Overtake(P, m, s, p, q, late);
    var u := Apply(P, t', Visit(q, false));
    Longer(P, before, steps, s, Issue(p, q), t, true);
    Longer(P, before + [t], steps + [Issue(p, q)], t, Deliver(p, q, BUCKETS), t', true);
    Longer(P, before + [t] + [t'], steps + [Issue(p, q)] + [Deliver(p, q, BUCKETS)], t', Visit(q, false), u, true);
    run := before + [t] + [t'] + [u];
    events := steps + [Issue(p, q)] + [Deliver(p, q, BUCKETS)] + [Visit(q, false)];
    i := |steps| + 2;
    assert P.plan(late, q, 0) == m(late, q);
  }

  /**
   * Barrier-free supersteps deliver in every ordered run exactly when every process that sends to q
   * besides another one has a short way back from q.
   */
  lemma DeliveryNeedsShortWaysBack(P: Program, m: (nat, nat) -> nat)
    requires BarrierFree(P, m)
    ensures AlwaysDelivers(P) <==> ShortWaysBack(P.n, m)
  {
    if ShortWaysBack(P.n, m) {
      ShortWaysDeliver(P, m);
    } else {
      var p: nat, q: nat :| p < P.n && q < P.n && !ShortWayBack(P.n, m, p, q);
      var late: nat :| Rivals(P.n, m, p, late, q);
      var run, events, i := WrapsAround(P, m, p, q, late);
      assert !DeliveredAt(P, run[i], late, q, 0) && !DeliversAt(P, run, events, i, q);
    }
  }

  // ---------------------------------------------------------------- rings of processes

  ghost function Next(n: nat, p: nat): nat {
    if p + 1 == n then 0 else p + 1
  }

  /** Every process sends to the next one only. */
  ghost predicate Ring(n: nat, m: (nat, nat) -> nat) {
    forall p: nat, q: nat :: p < n && q < n ==> (m(p, q) > 0 <==> q == Next(n, p))
  }

  /** Around a ring barrier-free supersteps always deliver, however many processes there are. */
  lemma RingDelivers(P: Program, m: (nat, nat) -> nat)
    requires BarrierFree(P, m) && Ring(P.n, m)
    ensures AlwaysDelivers(P)
  {
    forall q: nat | q < P.n ensures !Crowded(P.n, m, q) {
      assert forall p: nat, late: nat :: Rivals(P.n, m, p, late, q) ==> Next(P.n, p) == Next(P.n, late);
    }
    SingleSendersDeliver(P, m);
  }

  /** Every process sends to the next one and to itself. */
  ghost predicate RingWithSelf(n: nat, m: (nat, nat) -> nat) {
    forall p: nat, q: nat :: p < n && q < n ==> (m(p, q) > 0 <==> q == Next(n, p) || q == p)
  }

  /** How many steps around the ring lead from q to x. */
  ghost function Around(n: nat, q: nat, x: nat): nat
    requires q < n && x < n
  {
    if q <= x then x - q else x + n - q
  }

  lemma {:induction false} RingWithin(n: nat, m: (nat, nat) -> nat, q: nat, x: nat, l: nat)
    requires RingWithSelf(n, m) && q < n && x < n
    ensures Within(n, m, q, x, l) <==> Around(n, q, x) <= l
    decreases l
  {
    if q != x && l > 0 {
      var y := if x == 0 then n - 1 else x - 1;
      RingWithin(n, m, q, y, l - 1);
      RingWithin(n, m, q, x, l - 1);
      assert m(y, x) > 0;
      assert LastHop(n, m, q, y, x, l) <==> Within(n, m, q, y, l - 1);
      assert LastHop(n, m, q, x, x, l) <==> Within(n, m, q, x, l - 1);
      assert forall z: nat :: LastHop(n, m, q, z, x, l) ==> z == y || z == x;
    }
  }

  /** With a second sender everywhere, a ring delivers exactly as long as there are enough buckets. */
  lemma RingWithSelfDelivers(P: Program, m: (nat, nat) -> nat)
    requires BarrierFree(P, m) && RingWithSelf(P.n, m)
    ensures AlwaysDelivers(P) <==> P.n <= BUCKETS
  {
    DeliveryNeedsShortWaysBack(P, m);
    if P.n <= BUCKETS {
      forall p: nat, q: nat | p < P.n && q < P.n ensures ShortWayBack(P.n, m, p, q) {
        RingWithin(P.n, m, q, p, BUCKETS - 1);
      }
    } else {
      assert Rivals(P.n, m, 0, 1, 1);
      RingWithin(P.n, m, 1, 0, BUCKETS - 1);
      assert !ShortWayBack(P.n, m, 0, 1);
    }
  }
}
