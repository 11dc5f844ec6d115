/** Why supersteps end: the slowest processes can always go on. */
module SuperstepProgress {
  import opened Tallies
  import opened Verbs
  import opened Superstep
  import opened SuperstepSafety
  import opened SuperstepLimits

  /** Nobody is in an earlier superstep than p. */
  ghost predicate Slowest(P: Program, s: System, p: nat) {
    Formed(P, s) && p < P.n && forall q: nat :: q < P.n ==> Counter(s, p) <= Counter(s, q)
  }

  /** The step changes something: only a visit of the progress engine may find nothing to do. */
  ghost predicate LeadsOn(P: Program, s: System, e: Event)
    requires Formed(P, s) && Enabled(P, s, e)
  {
    e.Visit? ==> Apply(P, s, e).procs[e.p].verbs.request != s.procs[e.p].verbs.request
  }

  /** The program allows the step, and it brings a process of superstep k further in that superstep. */
  ghost predicate Useful(P: Program, s: System, e: Event, k: nat)
    requires Formed(P, s)
  {
    && Enabled(P, s, e) && Planned(P, s, e) && LeadsOn(P, s, e)
    && Actor(e) < P.n && Counter(s, Actor(e)) == k && (e.Deliver? ==> e.step == k) && InOrder(s, e)
  }

  // ---------------------------------------------------------------- collectives

  /** How many collective calls of superstep k process r has made. */
  ghost function Made(P: Program, s: System, r: nat, k: nat): nat
    requires r < |s.procs|
  {
    if Counter(s, r) > k then |StepCalls(P, k, r)| else |CallsNow(P, r, s.procs[r])|
  }

  lemma CallsMade(P: Program, s: System, r: nat, k: nat)
    requires Inv(P, s) && r < P.n && k <= Counter(s, r)
    ensures |s.procs[r].calls| >= |Script(P, k, r)| + Made(P, s, r, k)
  {
    assert LocalInv(P, r, s.procs[r]);
    if Counter(s, r) > k {
      ScriptGrows(P, k + 1, Counter(s, r), r);
    }
  }

  /** A call that all others have made as well returns. */
  lemma CallReturns(P: Program, s: System, p: nat)
    requires Agreed(P) && Inv(P, s) && Slowest(P, s, p)
    requires forall r: nat :: r < P.n ==> Made(P, s, r, Counter(s, p)) >= Made(P, s, p, Counter(s, p))
    ensures LastCallEntered(s, p)
  {
    var k := Counter(s, p);
    assert LocalInv(P, p, s.procs[p]);
    forall r: nat | r < P.n ensures |s.procs[r].calls| >= |s.procs[p].calls| {
      CallsMade(P, s, r, k);
      ScriptsAlike(P, k, p, r);
      assert Made(P, s, r, k) >= Made(P, s, p, k);
    }
  }

  // ---------------------------------------------------------------- one stage after the other

  /** Whoever may issue has something to issue, or to acknowledge, or has nothing left to wait for. */
  lemma IssueGoesOn(P: Program, s: System, p: nat) returns (done: bool, e: Event)
    requires Inv(P, s) && p < P.n && MayIssue(s, p)
    ensures if done then IssuedAll(P, s, p) && s.procs[p].verbs.numMsgs == 0 else Useful(P, s, e, Counter(s, p))
  {
    assert LocalInv(P, p, s.procs[p]);
    if d: nat :| d < P.n && s.procs[p].verbs.numMsgsSync[d] != P.plan(p, d, Counter(s, p)) {
      done, e := false, Issue(p, d);
    } else {
      done, e := s.procs[p].unacked == 0, Ack(p);
    }
  }

  lemma IdleGoesOn(P: Program, s: System, p: nat) returns (e: Event)
    requires Inv(P, s) && p < P.n && Idle(s, p)
    ensures Useful(P, s, e, Counter(s, p))
  {
    var done;
    done, e := IssueGoesOn(P, s, p);
    if done {
      e := if AttrNow(P, s, p).mode.Default? then CallVote(p) else CallSync(p);
    }
  }

  /** No process of superstep k is idle any more. */
  ghost predicate AllStarted(P: Program, s: System, k: nat)
    requires Formed(P, s)
  {
    forall q: nat :: q < P.n && Counter(s, q) == k ==> !Idle(s, q)
  }

  lemma VoteGoesOn(P: Program, s: System, p: nat) returns (e: Event)
    requires Agreed(P) && Inv(P, s) && Slowest(P, s, p) && AllStarted(P, s, Counter(s, p))
    requires s.procs[p].stage.Voting?
    ensures Useful(P, s, e, Counter(s, p))
  {
    var k := Counter(s, p);
    assert LocalInv(P, p, s.procs[p]);
    var done;
    done, e := IssueGoesOn(P, s, p);
    if done {
      forall r: nat | r < P.n ensures Made(P, s, r, k) >= Made(P, s, p, k) {
        assert LocalInv(P, r, s.procs[r]) && AgreedAt(P, k, p, r);
      }
      CallReturns(P, s, p);
      e := CallSync(p);
    }
  }

  /** Every process of superstep k has handed over its counts. */
  ghost predicate AllSynced(P: Program, s: System, k: nat)
    requires Formed(P, s)
  {
    forall q: nat :: q < P.n && Counter(s, q) == k ==> Synced(s.procs[q])
  }

  lemma ExchangeGoesOn(P: Program, s: System, p: nat)
    requires Agreed(P) && Inv(P, s) && Slowest(P, s, p) && AllSynced(P, s, Counter(s, p))
    requires s.procs[p].stage.Exchanging?
    ensures Useful(P, s, ReturnExchange(p), Counter(s, p))
  {
    var k := Counter(s, p);
    assert LocalInv(P, p, s.procs[p]);
    forall r: nat | r < P.n ensures Made(P, s, r, k) >= Made(P, s, p, k) {
      assert LocalInv(P, r, s.procs[r]);
      StepCallsAlike(P, k, p, r);
    }
    CallReturns(P, s, p);
  }

  /** All operations of the superstep have been issued, so what has not arrived is in flight. */
  lemma WaitGoesOn(P: Program, s: System, p: nat) returns (e: Event)
    requires Inv(P, s) && Slowest(P, s, p) && AllSynced(P, s, Counter(s, p))
    requires s.procs[p].verbs.request.isActive && !Consumed(s.procs[p])
    ensures Useful(P, s, e, Counter(s, p))
  {
    var k := Counter(s, p);
    assert LocalInv(P, p, s.procs[p]) && BucketsInv(P, s, p);
    if q: nat :| q < P.n && s.flight(q, p, k) > 0 {
      PastIsClear(P, s, q, p);
      e := Deliver(q, p, k);
    } else {
      forall q: nat | q < P.n ensures s.delivered(q, p, k) == P.plan(q, p, k) {
        assert ConservedAt(P, s, q, p, k) && Counter(s, p) <= Counter(s, q);
      }
      IncomingEqual(s.delivered, P.plan, P.n, p, k, k);
      StepInWindow(k, k % BUCKETS);
      e := Visit(p, false);
    }
  }

  /** The barrier opens once everybody of the superstep is in it. */
  lemma BarrierGoesOn(P: Program, s: System, p: nat)
    requires Agreed(P) && Inv(P, s) && Slowest(P, s, p)
    requires forall q: nat :: q < P.n && Counter(s, q) == Counter(s, p) ==> Consumed(s.procs[q])
    ensures Useful(P, s, Visit(p, true), Counter(s, p))
  {
    var k := Counter(s, p);
    assert LocalInv(P, p, s.procs[p]);
    forall r: nat | r < P.n ensures Made(P, s, r, k) >= Made(P, s, p, k) {
      assert LocalInv(P, r, s.procs[r]);
      StepCallsAlike(P, k, p, r);
    }
    CallReturns(P, s, p);
  }

  // ---------------------------------------------------------------- no deadlock

  lemma StartedGoesOn(P: Program, s: System, p: nat) returns (e: Event)
    requires Agreed(P) && Inv(P, s) && Slowest(P, s, p) && AllStarted(P, s, Counter(s, p))
    ensures Useful(P, s, e, Counter(s, p))
  {
    var k := Counter(s, p);
    if q: nat :| q < P.n && Counter(s, q) == k && s.procs[q].stage.Voting? {
      e := VoteGoesOn(P, s, q);
    } else {
      assert AllSynced(P, s, k);
      e := SyncedGoesOn(P, s, p);
    }
  }

  lemma SyncedGoesOn(P: Program, s: System, p: nat) returns (e: Event)
    requires Agreed(P) && Inv(P, s) && Slowest(P, s, p) && AllSynced(P, s, Counter(s, p))
    ensures Useful(P, s, e, Counter(s, p))
  {
    var k := Counter(s, p);
    if q: nat :| q < P.n && Counter(s, q) == k && s.procs[q].stage.Exchanging? {
      ExchangeGoesOn(P, s, q);
      e := ReturnExchange(q);
    } else if q: nat :| q < P.n && Counter(s, q) == k && !Consumed(s.procs[q]) {
      e := WaitGoesOn(P, s, q);
    } else {
      BarrierGoesOn(P, s, p);
      e := Visit(p, true);
    }
  }

  /**
   * In every state a run can come to, some process of the earliest superstep can take a step that
   * the program allows and that leads further.
   */
  lemma NeverStuck(P: Program, s: System, p: nat) returns (e: Event)
    requires Agreed(P) && Inv(P, s) && Slowest(P, s, p)
    ensures Useful(P, s, e, Counter(s, p))
  {
    var k := Counter(s, p);
    if q: nat :| q < P.n && Counter(s, q) == k && Idle(s, q) {
      e := IdleGoesOn(P, s, q);
    } else {
      e := StartedGoesOn(P, s, p);
    }
  }

  // ---------------------------------------------------------------- every superstep ends

  ghost function Total(f: nat -> nat, m: nat): nat {
    if m == 0 then 0 else Total(f, m - 1) + f(m - 1)
  }

  lemma {:induction false} TotalSame(f: nat -> nat, g: nat -> nat, m: nat)
    requires forall r: nat :: r < m ==> g(r) == f(r)
    ensures Total(g, m) == Total(f, m)
  {
    if m > 0 {
      TotalSame(f, g, m - 1);
    }
  }

  lemma {:induction false} TotalChange(f: nat -> nat, g: nat -> nat, m: nat, i: nat)
    requires i < m && forall r: nat :: r < m && r != i ==> g(r) == f(r)
    ensures Total(g, m) + f(i) == Total(f, m) + g(i)
  {
    if i < m - 1 {
      TotalChange(f, g, m - 1, i);
    } else {
      TotalSame(f, g, m - 1);
    }
  }

  ghost function Behind(planned: nat, issued: nat): nat {
    if issued < planned then planned - issued else 0
  }

  ghost function Lacks(P: Program, p: nat, pr: Process, k: nat): nat -> nat {
    (d: nat) => Behind(P.plan(p, d, k), if d < |pr.verbs.numMsgsSync| then pr.verbs.numMsgsSync[d] else 0)
  }

  /** The operations process p has yet to issue in superstep k. */
  ghost function Unissued(P: Program, p: nat, pr: Process, k: nat): nat {
    Total(Lacks(P, p, pr, k), P.n)
  }

  ghost function StagesLeft(pr: Process): nat {
    if Consumed(pr) then 1
    else if pr.verbs.request.isActive then 2
    else if pr.stage.Exchanging? then 3
    else if pr.stage.Voting? then 4
    else 5
  }

  /** What process p has yet to do itself: an operation is issued, delivered and acknowledged. */
  ghost function Own(P: Program, p: nat, pr: Process, k: nat): nat {
    if pr.verbs.counter != k then 0
    else StagesLeft(pr) + pr.unacked + if Synced(pr) then 0 else 3 * Unissued(P, p, pr, k)
  }

  ghost function Owns(P: Program, s: System, k: nat): nat -> nat {
    (p: nat) => if p < |s.procs| then Own(P, p, s.procs[p], k) else 0
  }

  ghost function Flights(P: Program, s: System, k: nat): nat -> nat {
    (p: nat) => Incoming(s.flight, P.n, p, k)
  }

  /** The steps that superstep k still takes at most. */
  ghost function Work(P: Program, s: System, k: nat): nat {
    Total(Owns(P, s, k), P.n) + Total(Flights(P, s, k), P.n)
  }

  lemma OwnChange(P: Program, s: System, s': System, p: nat, k: nat)
    requires |s.procs| == |s'.procs| == P.n && p < P.n
    requires forall r: nat :: r < P.n && r != p ==> s'.procs[r] == s.procs[r]
    ensures Total(Owns(P, s', k), P.n) + Own(P, p, s.procs[p], k)
            == Total(Owns(P, s, k), P.n) + Own(P, p, s'.procs[p], k)
  {
    TotalChange(Owns(P, s, k), Owns(P, s', k), P.n, p);
  }

  /** One more operation is in flight to d. */
  lemma FlightChange(P: Program, s: System, s': System, q: nat, d: nat, k: nat)
    requires q < P.n && d < P.n
    requires forall a: nat, b: nat, c: nat :: s'.flight(a, b, c) == Bump(s.flight, q, d, k)(a, b, c)
    ensures Total(Flights(P, s', k), P.n) == Total(Flights(P, s, k), P.n) + 1
  {
    var f, g := Flights(P, s, k), Flights(P, s', k);
    forall r: nat | r < P.n ensures g(r) == f(r) + if r == d then 1 else 0 {
      IncomingEqual(s'.flight, Bump(s.flight, q, d, k), P.n, r, k, k);
      if r == d {
        IncomingBump(s.flight, P.n, q, d, k);
      } else {
        IncomingBumpElsewhere(s.flight, P.n, q, d, k, r, k);
      }
    }
    TotalChange(f, g, P.n, d);
  }

  lemma IssueLowers(P: Program, s: System, p: nat, d: nat)
    requires Inv(P, s) && Enabled(P, s, Issue(p, d)) && Planned(P, s, Issue(p, d))
    ensures Work(P, Apply(P, s, Issue(p, d)), Counter(s, p)) < Work(P, s, Counter(s, p))
  {
    var s', k := Apply(P, s, Issue(p, d)), Counter(s, p);
    TotalChange(Lacks(P, p, s.procs[p], k), Lacks(P, p, s'.procs[p], k), P.n, d);
    OwnChange(P, s, s', p, k);
    FlightChange(P, s, s', p, d, k);
  }

  lemma DeliverLowers(P: Program, s: System, q: nat, d: nat, k: nat)
    requires Inv(P, s) && Enabled(P, s, Deliver(q, d, k))
    ensures Work(P, Apply(P, s, Deliver(q, d, k)), k) < Work(P, s, k)
  {
    var s' := Apply(P, s, Deliver(q, d, k));
    FlightChange(P, s', s, q, d, k);
    TotalSame(Owns(P, s, k), Owns(P, s', k), P.n);
  }

  lemma OtherStepLowers(P: Program, s: System, e: Event, k: nat)
    requires Inv(P, s) && Useful(P, s, e, k) && !e.Issue? && !e.Deliver?
    ensures Work(P, Apply(P, s, e), k) < Work(P, s, k)
  {
    var s', p := Apply(P, s, e), e.p;
    assert LocalInv(P, p, s.procs[p]);
    OwnChange(P, s, s', p, k);
    TotalSame(Flights(P, s, k), Flights(P, s', k), P.n);
    if e.Ack? {
      TotalSame(Lacks(P, p, s.procs[p], k), Lacks(P, p, s'.procs[p], k), P.n);
    }
  }

  /** Whatever useful step is taken, the work left of the superstep shrinks. */
  lemma UsefulLowers(P: Program, s: System, e: Event, k: nat)
    requires Inv(P, s) && Useful(P, s, e, k)
    ensures Work(P, Apply(P, s, e), k) < Work(P, s, k)
  {
    match e
    case Issue(p, d) => IssueLowers(P, s, p, d);
    case Deliver(q, d, j) => DeliverLowers(P, s, q, d, j);
    case _ => OtherStepLowers(P, s, e, k);
  }

  /**
   * No superstep is held up for good: any run of a well-synced program in which nobody is before
   * superstep k can be continued until everybody is behind it, in order if it has been in order.
   */
  lemma SuperstepEnds(
    P: Program, nb: Neighbours, run: seq<System>, events: seq<Event>, k: nat, ordered: bool)
    returns (run': seq<System>, events': seq<Event>)
    requires WellSynced(P, nb) && IsPlannedRun(P, run, events) && Formed(P, run[|events|])
    requires ordered ==> IsOrdered(run, events)
    requires forall p: nat :: p < P.n ==> k <= Counter(run[|events|], p)
    ensures IsPlannedRun(P, run', events') && run <= run' && events <= events'
    ensures ordered ==> IsOrdered(run', events')
    ensures Formed(P, run'[|events'|]) && forall p: nat :: p < P.n ==> k < Counter(run'[|events'|], p)
    decreases Work(P, run[|events|], k)
  {
    var s := run[|events|];
    if p: nat :| p < P.n && Counter(s, p) == k {
      RunInv(P, nb, run, events, |events|);
      var e := NeverStuck(P, s, p);
      UsefulLowers(P, s, e, k);
      var t := Apply(P, s, e);
      FormedKept(P, s, e, t);
      Longer(P, run, events, s, e, t, ordered);
      forall q: nat | q < P.n ensures k <= Counter(t, q) {
        CounterSteps(P, s, e, t, q);
      }
      run', events' := SuperstepEnds(P, nb, run + [t], events + [e], k, ordered);
    } else {
      run', events' := run, events;
    }
  }

  lemma {:induction false} SomeSlowest(P: Program, s: System, m: nat) returns (p: nat)
    requires Formed(P, s) && 0 < m <= P.n
    ensures p < m && forall q: nat :: q < m ==> Counter(s, p) <= Counter(s, q)
  {
    p := 0;
    if m > 1 {
      var best := SomeSlowest(P, s, m - 1);
      p := if Counter(s, best) <= Counter(s, m - 1) then best else m - 1;
    }
  }

  /** Every planned run of a well-synced program can be continued, to the profit of the slowest. */
  lemma RunGoesOn(P: Program, nb: Neighbours, run: seq<System>, events: seq<Event>)
    returns (p: nat, e: Event)
    requires WellSynced(P, nb) && IsPlannedRun(P, run, events) && P.n > 0
    ensures Slowest(P, run[|events|], p) && Useful(P, run[|events|], e, Counter(run[|events|], p))
  {
    var s := run[|events|];
    RunInv(P, nb, run, events, |events|);
    p := SomeSlowest(P, s, P.n);
    e := NeverStuck(P, s, p);
  }
}
