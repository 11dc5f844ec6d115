/**
 * How far apart barrier-free supersteps may drift.  Any assignment of supersteps to processes in
 * which nobody is more than one ahead of a process that sends to it is reached by some run.
 */
module SuperstepLimits {
  import opened Arithmetic
  import opened Tallies
  import opened Verbs
  import opened Superstep
  import opened SuperstepSafety
  import opened SuperstepRuns
  import opened SuperstepPrograms

  ghost predicate EndsIn(P: Program, run: seq<System>, events: seq<Event>, s: System, ordered: bool) {
    IsPlannedRun(P, run, events) && run[|events|] == s && (ordered ==> IsOrdered(run, events))
  }

  /** Some run comes to s, if asked for with every connection in order. */
  ghost predicate Reachable(P: Program, s: System, ordered: bool) {
    exists run, events :: EndsIn(P, run, events, s, ordered)
  }

  ghost predicate AllBelow(P: Program, s: System, bound: nat) {
    Formed(P, s) && forall p: nat :: p < P.n ==> Counter(s, p) < bound
  }

  /** The run ends in s, and before its last step no process has gone through all its buckets. */
  ghost predicate ShortRun(P: Program, run: seq<System>, events: seq<Event>, s: System) {
    EndsIn(P, run, events, s, true) && forall i: nat :: i < |events| ==> AllBelow(P, run[i], BUCKETS)
  }

  ghost predicate Early(P: Program, s: System) {
    Formed(P, s) && exists run, events :: ShortRun(P, run, events, s)
  }

  lemma ShortRunInv(P: Program, run: seq<System>, events: seq<Event>, s: System, i: nat)
    requires Agreed(P) && CountsRight(P) && ShortRun(P, run, events, s) && i < |run|
    ensures Inv(P, run[i])
  {
    if i == 0 {
      InitInv(P);
    } else {
      ShortRunInv(P, run, events, s, i - 1);
      ShortInWindow(P, run[i - 1]);
      StepKeeps(P, run[i - 1], events[i - 1], run[i]);
    }
  }

  lemma ShortInWindow(P: Program, s: System)
    requires Inv(P, s) && AllBelow(P, s, BUCKETS)
    ensures InWindow(P, s)
  {
    forall q: nat, d: nat, k: nat | q < P.n && d < P.n && s.flight(q, d, k) + s.delivered(q, d, k) > 0
      ensures k < Counter(s, d) + BUCKETS
    {
      StepOfOperation(P, s, q, d, k);
    }
  }

  lemma EarlyInv(P: Program, s: System)
    requires Agreed(P) && CountsRight(P) && Early(P, s)
    ensures Inv(P, s)
  {
    var run, events :| ShortRun(P, run, events, s);
    ShortRunInv(P, run, events, s, |events|);
  }

  lemma EarlyLocal(P: Program, s: System, p: nat)
    requires Agreed(P) && CountsRight(P) && Early(P, s) && p < P.n
    ensures LocalInv(P, p, s.procs[p])
  {
    EarlyInv(P, s);
  }

  // ---------------------------------------------------------------- where a process is

  ghost predicate IdleAt(s: System, p: nat, k: nat)
    requires p < |s.procs|
  {
    Counter(s, p) == k && Idle(s, p)
  }

  ghost predicate ExchangingAt(s: System, p: nat, k: nat)
    requires p < |s.procs|
  {
    Counter(s, p) == k && s.procs[p].stage.Exchanging?
  }

  ghost predicate WaitingAt(s: System, p: nat, k: nat)
    requires p < |s.procs|
  {
    Counter(s, p) == k && s.procs[p].verbs.request.isActive
  }

  ghost predicate SamePlace(s: System, s': System, p: nat)
    requires p < |s.procs| == |s'.procs|
  {
    && Counter(s', p) == Counter(s, p)
    && s'.procs[p].stage == s.procs[p].stage
    && s'.procs[p].verbs.request == s.procs[p].verbs.request
  }

  ghost predicate SameArrivals(s: System, s': System, p: nat) {
    forall q: nat, k: nat :: s'.delivered(q, p, k) == s.delivered(q, p, k)
  }

  ghost predicate SameElsewhere(s: System, s': System, p: nat) {
    && |s.procs| == |s'.procs|
    && forall r: nat :: r < |s.procs| && r != p ==> SamePlace(s, s', r) && SameArrivals(s, s', r)
  }

  lemma Chain(s: System, t: System, s': System, p: nat)
    requires SameElsewhere(s, t, p) && SameElsewhere(t, s', p)
    ensures SameElsewhere(s, s', p)
  {
    forall r: nat | r < |s.procs| && r != p ensures SamePlace(s, s', r) && SameArrivals(s, s', r) {
      assert SamePlace(s, t, r) && SamePlace(t, s', r) && SameArrivals(s, t, r) && SameArrivals(t, s', r);
    }
  }

  /** A planned run goes on with a planned step. */
  lemma Longer(
    P: Program, run: seq<System>, events: seq<Event>, s: System, e: Event, s': System, ordered: bool)
    requires EndsIn(P, run, events, s, ordered) && PlannedStep(P, s, e, s') && (ordered ==> InOrder(s, e))
    ensures EndsIn(P, run + [s'], events + [e], s', ordered)
  {
    var run', events' := run + [s'], events + [e];
    forall i: nat | i < |events'| ensures PlannedStep(P, run'[i], events'[i], run'[i + 1]) {
      assert i < |events| ==> PlannedStep(P, run[i], events[i], run[i + 1]);
    }
    if ordered {
      forall i: nat | i < |events'| ensures InOrder(run'[i], events'[i]) {
        assert i < |events| ==> InOrder(run[i], events[i]);
      }
    }
  }

  lemma StaysEarly(P: Program, s: System, e: Event, s': System)
    requires Early(P, s) && AllBelow(P, s, BUCKETS) && PlannedStep(P, s, e, s') && InOrder(s, e) && Formed(P, s')
    ensures Early(P, s')
  {
    var run, events :| ShortRun(P, run, events, s);
    Longer(P, run, events, s, e, s', true);
    var run', events' := run + [s'], events + [e];
    forall i: nat | i < |events'| ensures AllBelow(P, run'[i], BUCKETS) {
      assert i < |events| ==> AllBelow(P, run[i], BUCKETS);
    }
    assert ShortRun(P, run', events', s');
  }

  lemma Take(P: Program, s: System, e: Event) returns (s': System)
    requires Early(P, s) && AllBelow(P, s, BUCKETS) && Enabled(P, s, e) && Planned(P, s, e) && InOrder(s, e)
    ensures s' == Apply(P, s, e) && Early(P, s') && Actor(e) < P.n && SameElsewhere(s, s', Actor(e))
    ensures !e.Visit? ==> AllBelow(P, s', BUCKETS)
  {
    s' := Apply(P, s, e);
    forall p: nat | p < P.n ensures e.Visit? || Counter(s', p) == Counter(s, p) {
      assert p != Actor(e) ==> SamePlace(s, s', p);
    }
    FormedKept(P, s, e, s');
    StaysEarly(P, s, e, s');
  }

  /** What the moves below need of a program and of the state they start in. */
  ghost predicate Ready(P: Program, s: System) {
    Agreed(P) && CountsRight(P) && Early(P, s) && AllBelow(P, s, BUCKETS)
  }

  // ---------------------------------------------------------------- one process syncs

  lemma IssueTo(P: Program, s: System, p: nat, d: nat) returns (s': System)
    requires Ready(P, s) && p < P.n && d < P.n && MayIssue(s, p)
    ensures Ready(P, s') && SameElsewhere(s, s', p) && SamePlace(s, s', p) && SameArrivals(s, s', p)
    ensures s'.procs[p].verbs.numMsgsSync == s.procs[p].verbs.numMsgsSync[d := P.plan(p, d, Counter(s, p))]
    decreases P.plan(p, d, Counter(s, p)) - s.procs[p].verbs.numMsgsSync[d]
  {
    EarlyLocal(P, s, p);
    if s.procs[p].verbs.numMsgsSync[d] == P.plan(p, d, Counter(s, p)) {
      s' := s;
    } else {
      var t := Take(P, s, Issue(p, d));
      s' := IssueTo(P, t, p, d);
      Chain(s, t, s', p);
    }
  }

  lemma IssueAll(P: Program, s: System, p: nat, m: nat) returns (s': System)
    requires Ready(P, s) && p < P.n && m <= P.n && MayIssue(s, p)
    ensures Ready(P, s') && SameElsewhere(s, s', p) && SamePlace(s, s', p) && SameArrivals(s, s', p)
    ensures forall d: nat :: d < m ==> s'.procs[p].verbs.numMsgsSync[d] == P.plan(p, d, Counter(s, p))
  {
    if m == 0 {
      s' := s;
    } else {
      var t := IssueAll(P, s, p, m - 1);
      s' := IssueTo(P, t, p, m - 1);
      Chain(s, t, s', p);
    }
  }

  lemma AckAll(P: Program, s: System, p: nat) returns (s': System)
    requires Ready(P, s) && p < P.n
    ensures Ready(P, s') && SameElsewhere(s, s', p) && SamePlace(s, s', p) && SameArrivals(s, s', p)
    ensures s'.procs[p].verbs.numMsgsSync == s.procs[p].verbs.numMsgsSync && s'.procs[p].verbs.numMsgs == 0
    decreases s.procs[p].unacked
  {
    if s.procs[p].unacked == 0 {
      s' := s;
    } else {
      var t := Take(P, s, Ack(p));
      s' := AckAll(P, t, p);
      Chain(s, t, s', p);
    }
  }

  /** An idle process issues its whole superstep and syncs. */
  lemma Settle(P: Program, m: (nat, nat) -> nat, s: System, p: nat, k: nat) returns (s': System)
    requires BarrierFree(P, m) && Ready(P, s) && p < P.n && IdleAt(s, p, k)
    ensures Ready(P, s') && SameElsewhere(s, s', p) && SameArrivals(s, s', p)
    ensures if Exchanges(P, k, p) then ExchangingAt(s', p, k) else WaitingAt(s', p, k)
  {
    var t := IssueAll(P, s, p, P.n);
    var u := AckAll(P, t, p);
    assert P.attr(k, p) == Attr(Cached, false);
    EarlyLocal(P, u, p);
    s' := Take(P, u, CallSync(p));
    Chain(s, t, u, p);
    Chain(s, u, s', p);
  }

  // ---------------------------------------------------------------- one process finishes

  /** The network delivers what q has sent to d in superstep k, up to the last `keep` operations. */
  lemma DeliverFrom(P: Program, s: System, q: nat, d: nat, k: nat, keep: nat) returns (s': System)
    requires Ready(P, s) && q < P.n && d < P.n && keep <= s.flight(q, d, k) && Clear(s, q, d, k)
    ensures Ready(P, s') && SameElsewhere(s, s', d) && SamePlace(s, s', d)
    ensures s'.flight(q, d, k) == keep
    ensures forall r: nat, j: nat :: r != q || j != k ==> s'.flight(r, d, j) == s.flight(r, d, j)
    decreases s.flight(q, d, k)
  {
    if s.flight(q, d, k) == keep {
      s' := s;
    } else {
      var t := Take(P, s, Deliver(q, d, k));
      s' := DeliverFrom(P, t, q, d, k, keep);
      Chain(s, t, s', d);
    }
  }

  /** The same for the first m sources; of source `late`, one operation stays behind. */
  lemma DeliverTo(P: Program, s: System, d: nat, k: nat, m: nat, late: nat) returns (s': System)
    requires Ready(P, s) && d < P.n && m <= P.n && (late < P.n ==> s.flight(late, d, k) > 0)
    requires forall q: nat :: q < P.n ==> Clear(s, q, d, k)
    ensures Ready(P, s') && SameElsewhere(s, s', d) && SamePlace(s, s', d)
    ensures forall q: nat, j: nat :: j != k ==> s'.flight(q, d, j) == s.flight(q, d, j)
    ensures forall q: nat :: q < m ==> s'.flight(q, d, k) == if q == late then 1 else 0
    ensures forall q: nat :: q >= m ==> s'.flight(q, d, k) == s.flight(q, d, k)
  {
    if m == 0 {
      s' := s;
    } else {
      var t := DeliverTo(P, s, d, k, m - 1, late);
      assert Clear(s, m - 1, d, k);
      s' := DeliverFrom(P, t, m - 1, d, k, if m - 1 == late then 1 else 0);
      Chain(s, t, s', d);
    }
  }

  ghost predicate SentTo(P: Program, s: System, q: nat, p: nat, k: nat)
    requires q < |s.procs|
  {
    P.plan(q, p, k) == 0 || Closed(s, q, k)
  }

  /** With nothing left in flight, a waiting process has got what it waits for. */
  lemma EverythingArrived(P: Program, s: System, p: nat, k: nat)
    requires Ready(P, s) && p < P.n && WaitingAt(s, p, k) && !P.attr(k, p).barrier
    requires forall q: nat :: q < P.n ==> SentTo(P, s, q, p, k) && s.flight(q, p, k) == 0
    ensures Arrived(s.procs[p].verbs) && !s.procs[p].verbs.request.withBarrier && s.procs[p].stage.Computing?
  {
    EarlyInv(P, s);
    assert LocalInv(P, p, s.procs[p]) && BucketsInv(P, s, p);
    forall q: nat | q < P.n ensures s.delivered(q, p, k) == P.plan(q, p, k) {
      assert SentTo(P, s, q, p, k) && ConservedAt(P, s, q, p, k) && LocalInv(P, q, s.procs[q]);
    }
    IncomingEqual(s.delivered, P.plan, P.n, p, k, k);
    StepInWindow(k, k % BUCKETS);
  }

  /** What p has waited for is no longer on its way. */
  lemma PastIsClear(P: Program, s: System, q: nat, p: nat)
    requires Core(P, s) && q < P.n && p < P.n
    ensures Clear(s, q, p, Counter(s, p))
  {
    forall j: nat | j < Counter(s, p) ensures s.flight(q, p, j) == 0 {
      assert Past(s, p, j) && DeliveredAt(P, s, q, p, j);
    }
  }

  ghost predicate NothingIssued(P: Program, s: System, p: nat)
    requires Formed(P, s) && p < P.n
  {
    forall d: nat :: d < P.n ==> s.procs[p].verbs.numMsgsSync[d] == 0
  }

  /** A waiting process ends its superstep once everybody who sends to it has synced. */
  lemma FinishStep(P: Program, m: (nat, nat) -> nat, s: System, p: nat, k: nat) returns (s': System)
    requires BarrierFree(P, m) && Ready(P, s) && p < P.n && WaitingAt(s, p, k)
    requires forall q: nat :: q < P.n ==> SentTo(P, s, q, p, k)
    ensures Early(P, s') && SameElsewhere(s, s', p) && IdleAt(s', p, k + 1) && NothingIssued(P, s', p)
  {
    EarlyInv(P, s);
    forall q: nat | q < P.n ensures Clear(s, q, p, k) {
      PastIsClear(P, s, q, p);
    }
    var t := DeliverTo(P, s, p, k, P.n, P.n);
    assert P.attr(k, p) == Attr(Cached, false);
    forall q: nat | q < P.n ensures SentTo(P, t, q, p, k) {
      assert SentTo(P, s, q, p, k) && SamePlace(s, t, q);
    }
    EverythingArrived(P, t, p, k);
    EarlyLocal(P, t, p);
    s' := Take(P, t, Visit(p, false));
    Chain(s, t, s', p);
  }

  // ---------------------------------------------------------------- the run that drifts apart

  lemma FirstExchange(P: Program, m: (nat, nat) -> nat, p: nat, k: nat)
    requires BarrierFree(P, m)
    ensures Exchanges(P, k, p) <==> k == 0
  {
    assert P.attr(0, p) == Attr(Cached, false);
    if k > 0 {
      assert P.attr(k, p) == P.attr(k - 1, p) == Attr(Cached, false);
      FirstExchange(P, m, p, k - 1);
    }
  }

  /** Process r has got nothing so far. */
  ghost predicate Untouched(s: System, r: nat) {
    forall q: nat, k: nat :: s.delivered(q, r, k) == 0
  }

  ghost predicate Entering(s: System, r: nat, c: nat)
    requires r < |s.procs|
  {
    Untouched(s, r) && if r < c then ExchangingAt(s, r, 0) else IdleAt(s, r, 0)
  }

  /** Everybody enters the count exchange of superstep 0. */
  lemma AllExchange(P: Program, m: (nat, nat) -> nat, c: nat) returns (s: System)
    requires BarrierFree(P, m) && Agreed(P) && CountsRight(P) && c <= P.n
    ensures Ready(P, s) && forall r: nat :: r < P.n ==> Entering(s, r, c)
  {
    if c == 0 {
      s := Init(P);
      assert ShortRun(P, [s], [], s);
    } else {
      var t := AllExchange(P, m, c - 1);
      assert Entering(t, c - 1, c - 1);
      FirstExchange(P, m, c - 1, 0);
      s := Settle(P, m, t, c - 1, 0);
      forall r: nat | r < P.n ensures Entering(s, r, c) {
        assert Entering(t, r, c - 1) && (r != c - 1 ==> SamePlace(t, s, r));
      }
    }
  }

  ghost predicate Returning(s: System, r: nat, c: nat)
    requires r < |s.procs|
  {
    Untouched(s, r) && if r < c then WaitingAt(s, r, 0) else ExchangingAt(s, r, 0)
  }

  lemma OneCallMade(P: Program, m: (nat, nat) -> nat, s: System, r: nat, c: nat)
    requires BarrierFree(P, m) && Ready(P, s) && r < P.n && Returning(s, r, c)
    ensures |s.procs[r].calls| == 1
  {
    EarlyLocal(P, s, r);
    FirstExchange(P, m, r, 0);
    assert P.attr(0, r) == Attr(Cached, false);
    assert s.procs[r].calls == Script(P, 0, r) + BeforeRequest(P, 0, r);
  }

  lemma AllWait(P: Program, m: (nat, nat) -> nat, c: nat) returns (s: System)
    requires BarrierFree(P, m) && Agreed(P) && CountsRight(P) && c <= P.n
    ensures Ready(P, s) && forall r: nat :: r < P.n ==> Returning(s, r, c)
  {
    if c == 0 {
      s := AllExchange(P, m, P.n);
      forall r: nat | r < P.n ensures Returning(s, r, c) {
        assert Entering(s, r, P.n);
      }
    } else {
      var t := AllWait(P, m, c - 1);
      forall r: nat | r < P.n ensures |t.procs[r].calls| == 1 {
        assert Returning(t, r, c - 1);
        OneCallMade(P, m, t, r, c - 1);
      }
      assert Returning(t, c - 1, c - 1);
      s := Take(P, t, ReturnExchange(c - 1));
      forall r: nat | r < P.n ensures Returning(s, r, c) {
        assert Returning(t, r, c - 1);
      }
    }
  }

  /** The supersteps the processes are to reach: nobody is ahead of its senders by more than one. */
  ghost predicate Levels(n: nat, m: (nat, nat) -> nat, level: nat -> nat) {
    forall x: nat, y: nat :: x < n && y < n && m(x, y) > 0 ==> level(y) <= level(x) + 1
  }

  /** The process waits in superstep t, or before it in the superstep it is to reach. */
  ghost predicate Waiting(s: System, level: nat -> nat, t: nat, r: nat)
    requires r < |s.procs|
  {
    WaitingAt(s, r, Min(level(r), t))
  }

  /** Such a process that is not to leave superstep 0 has got nothing so far. */
  ghost predicate Climbed(s: System, level: nat -> nat, t: nat, r: nat)
    requires r < |s.procs|
  {
    Waiting(s, level, t, r) && (level(r) == 0 ==> Untouched(s, r))
  }

  /** The first c of those that go on to superstep t are idle in it. */
  ghost predicate Risen(s: System, level: nat -> nat, t: nat, r: nat, c: nat)
    requires r < |s.procs| && t > 0
  {
    if t <= level(r) && r < c then IdleAt(s, r, t) else WaitingAt(s, r, Min(level(r), t - 1))
  }

  ghost predicate Rising(s: System, level: nat -> nat, t: nat, r: nat, c: nat)
    requires r < |s.procs| && t > 0
  {
    Risen(s, level, t, r, c) && (level(r) == 0 ==> Untouched(s, r))
  }

  /** The first c of those that go on to superstep t have synced in it. */
  ghost predicate Settling(s: System, level: nat -> nat, t: nat, r: nat, c: nat)
    requires r < |s.procs|
  {
    && (if t <= level(r) && r >= c then IdleAt(s, r, t) else WaitingAt(s, r, Min(level(r), t)))
    && (level(r) == 0 ==> Untouched(s, r))
  }

  lemma Climb(P: Program, m: (nat, nat) -> nat, level: nat -> nat, t: nat) returns (s: System)
    requires BarrierFree(P, m) && Agreed(P) && CountsRight(P) && Levels(P.n, m, level) && t < BUCKETS
    ensures Ready(P, s) && forall r: nat :: r < P.n ==> Climbed(s, level, t, r)
    decreases t, 2
  {
    if t == 0 {
      s := AllWait(P, m, P.n);
      forall r: nat | r < P.n ensures Climbed(s, level, t, r) {
        assert Returning(s, r, P.n);
      }
    } else {
      s := SettleAll(P, m, level, t, P.n);
      forall r: nat | r < P.n ensures Climbed(s, level, t, r) {
        assert Settling(s, level, t, r, P.n);
      }
    }
  }

  /** Whoever sends to a process that may go on to superstep t has synced in the one before. */
  lemma SenderSynced(
    P: Program, m: (nat, nat) -> nat, level: nat -> nat, s: System, t: nat, p: nat, c: nat, r: nat)
    requires BarrierFree(P, m) && Levels(P.n, m, level) && Formed(P, s) && p < P.n && r < P.n && 0 < t <= level(p)
    requires Risen(s, level, t, r, c)
    ensures SentTo(P, s, r, p, t - 1)
  {
    assert P.plan(r, p, t - 1) == m(r, p);
  }

  lemma RiseAll(P: Program, m: (nat, nat) -> nat, level: nat -> nat, t: nat, c: nat) returns (s: System)
    requires BarrierFree(P, m) && Agreed(P) && CountsRight(P) && Levels(P.n, m, level)
    requires 0 < t < BUCKETS && c <= P.n
    ensures Ready(P, s) && forall r: nat :: r < P.n ==> Rising(s, level, t, r, c)
    decreases t, 0, c
  {
    if c == 0 {
      s := Climb(P, m, level, t - 1);
      forall r: nat | r < P.n ensures Rising(s, level, t, r, c) {
        assert Climbed(s, level, t - 1, r);
      }
    } else {
      var p := c - 1;
      var u := RiseAll(P, m, level, t, p);
      s := u;
      assert Rising(u, level, t, p, p);
      if t <= level(p) {
        var k: nat := t - 1;
        forall r: nat | r < P.n ensures SentTo(P, u, r, p, k) {
          assert Rising(u, level, t, r, p);
          SenderSynced(P, m, level, u, t, p, p, r);
        }
        s := FinishStep(P, m, u, p, k);
      }
      forall r: nat | r < P.n ensures Rising(s, level, t, r, c) && Counter(s, r) < BUCKETS {
        assert Rising(u, level, t, r, p) && (r != p ==> SamePlace(u, s, r));
      }
    }
  }

  lemma SettleAll(P: Program, m: (nat, nat) -> nat, level: nat -> nat, t: nat, c: nat) returns (s: System)
    requires BarrierFree(P, m) && Agreed(P) && CountsRight(P) && Levels(P.n, m, level)
    requires 0 < t < BUCKETS && c <= P.n
    ensures Ready(P, s) && forall r: nat :: r < P.n ==> Settling(s, level, t, r, c)
    decreases t, 1, c
  {
    if c == 0 {
      s := RiseAll(P, m, level, t, P.n);
      forall r: nat | r < P.n ensures Settling(s, level, t, r, c) {
        assert Rising(s, level, t, r, P.n);
      }
    } else {
      var p := c - 1;
      var u := SettleAll(P, m, level, t, p);
      s := u;
      assert Settling(u, level, t, p, p);
      if t <= level(p) {
        FirstExchange(P, m, p, t);
        s := Settle(P, m, u, p, t);
      }
      forall r: nat | r < P.n ensures Settling(s, level, t, r, c) {
        assert Settling(u, level, t, r, p) && (r != p ==> SamePlace(u, s, r));
      }
    }
  }

  /** Process p alone goes on to superstep t + 1. */
  lemma Outrun(P: Program, m: (nat, nat) -> nat, level: nat -> nat, s: System, t: nat, p: nat) returns (s': System)
    requires BarrierFree(P, m) && Ready(P, s) && Levels(P.n, m, level) && t < BUCKETS && p < P.n && t < level(p)
    requires forall r: nat :: r < P.n ==> Waiting(s, level, t, r)
    ensures Early(P, s') && SameElsewhere(s, s', p) && IdleAt(s', p, t + 1) && NothingIssued(P, s', p)
  {
    assert Waiting(s, level, t, p);
    forall r: nat | r < P.n ensures SentTo(P, s, r, p, t) {
      assert Waiting(s, level, t, r);
      SenderSynced(P, m, level, s, t + 1, p, 0, r);
    }
    s' := FinishStep(P, m, s, p, t);
  }

  lemma CachedProgramsCount(P: Program, m: (nat, nat) -> nat)
    requires BarrierFree(P, m)
    ensures Agreed(P) && CountsRight(P)
  {
    forall k: nat, p: nat, q: nat ensures SameModesAt(P, k, p, q) && RepeatsAt(P, k, p) {
      assert P.attr(k, p) == P.attr(k, q) == Attr(Cached, false);
    }
    CachedRefinesDefault(P);
  }
}
