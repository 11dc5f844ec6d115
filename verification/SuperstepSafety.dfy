/** What every run of the superstep protocol keeps. */
module SuperstepSafety {
  import opened Tallies
  import opened Verbs
  import opened Superstep

  // ---------------------------------------------------------------- the invariant

  /** The counts of the current superstep have been taken over by the sync. */
  ghost predicate Synced(pr: Process) {
    pr.stage.Exchanging? || pr.verbs.request.isActive
  }

  /** The arrivals of the current superstep have been taken out of their bucket. */
  ghost predicate Consumed(pr: Process) {
    pr.verbs.request.isActive && pr.verbs.request.secondPhase
  }

  /** The collective calls of the current superstep made so far. */
  ghost function CallsNow(P: Program, p: nat, pr: Process): seq<Call> {
    var k := pr.verbs.counter;
    if Consumed(pr) then StepCalls(P, k, p)
    else if Synced(pr) then BeforeRequest(P, k, p)
    else if pr.stage.Voting? then [Vote]
    else []
  }

  ghost predicate RequestInv(P: Program, p: nat, pr: Process) {
    var v := pr.verbs;
    && (v.request.secondPhase ==> v.request.isActive && v.request.withBarrier)
    && (v.request.isActive ==>
          && pr.stage.Computing?
          && v.request.withBarrier == P.attr(v.counter, p).barrier
          && v.request.remoteMsgs == if v.request.secondPhase then 0 else Incoming(P.plan, P.n, p, v.counter))
  }

  ghost predicate StageInv(P: Program, p: nat, pr: Process) {
    var v := pr.verbs;
    && (pr.stage.Voting? ==> P.attr(v.counter, p).mode.Default?)
    && (pr.stage.Exchanging? ==> Exchanges(P, v.counter, p))
    && (v.cached, v.cachedValue) == CacheAt(P, if v.request.isActive then v.counter + 1 else v.counter, p)
    && pr.calls == Script(P, v.counter, p) + CallsNow(P, p, pr)
  }

  ghost predicate PostedInv(P: Program, p: nat, pr: Process)
    requires |pr.verbs.numMsgsSync| == P.n
  {
    var v := pr.verbs;
    && (Synced(pr) ==> v.numMsgs == 0)
    && forall d: nat :: d < P.n ==>
                          if Synced(pr) then v.numMsgsSync[d] == 0
                          else v.numMsgsSync[d] <= P.plan(p, d, v.counter)
  }

  /** Everything the invariant says about one process alone, except its arrival buckets. */
  ghost predicate LocalInv(P: Program, p: nat, pr: Process) {
    && Shaped(pr.verbs, P.n) && pr.verbs.numMsgs == pr.unacked
    && RequestInv(P, p, pr) && StageInv(P, p, pr) && PostedInv(P, p, pr)
  }

  /** How many operations process q has issued to d in superstep k. */
  ghost function Issued(P: Program, q: nat, pr: Process, d: nat, k: nat): nat
    requires |pr.verbs.numMsgsSync| == P.n && d < P.n
  {
    if k < pr.verbs.counter then P.plan(q, d, k)
    else if k > pr.verbs.counter then 0
    else if Synced(pr) then P.plan(q, d, k)
    else pr.verbs.numMsgsSync[d]
  }

  ghost predicate ConservedAt(P: Program, s: System, q: nat, d: nat, k: nat)
    requires Formed(P, s) && q < P.n && d < P.n
  {
    s.flight(q, d, k) + s.delivered(q, d, k) == Issued(P, q, s.procs[q], d, k)
  }

  ghost predicate Conserved(P: Program, s: System)
    requires Formed(P, s)
  {
    forall q: nat, d: nat, k: nat :: q < P.n && d < P.n ==> ConservedAt(P, s, q, d, k)
  }

  /** Everything addressed to p in superstep k has arrived and has been waited for. */
  ghost predicate Past(s: System, p: nat, k: nat)
    requires p < |s.procs|
  {
    k < Counter(s, p) || (k == Counter(s, p) && Consumed(s.procs[p]))
  }

  ghost predicate DeliveredAt(P: Program, s: System, q: nat, p: nat, k: nat) {
    s.delivered(q, p, k) == P.plan(q, p, k) && s.flight(q, p, k) == 0
  }

  ghost predicate FullyDelivered(P: Program, s: System)
    requires Formed(P, s)
  {
    forall q: nat, p: nat, k: nat :: q < P.n && p < P.n && Past(s, p, k) ==> DeliveredAt(P, s, q, p, k)
  }

  /** The superstep in `[c, c + BUCKETS)` whose arrivals go to bucket b. */
  ghost function StepIn(c: nat, b: nat): nat {
    c + (b + BUCKETS - c % BUCKETS) % BUCKETS
  }

  /** What bucket b of process p holds: the arrivals of one superstep, unless already consumed. */
  ghost function Bucket(P: Program, s: System, p: nat, b: nat): nat
    requires Formed(P, s) && p < P.n
  {
    var k := StepIn(Counter(s, p), b);
    if Past(s, p, k) then 0 else Incoming(s.delivered, P.n, p, k)
  }

  ghost predicate BucketsInv(P: Program, s: System, p: nat)
    requires Formed(P, s) && p < P.n
  {
    forall b: nat :: b < BUCKETS ==> s.procs[p].verbs.recvCounts[b] == Bucket(P, s, p, b)
  }

  /** What holds whether or not supersteps share a bucket. */
  ghost predicate Core(P: Program, s: System) {
    && Formed(P, s)
    && (forall p: nat :: p < P.n ==> LocalInv(P, p, s.procs[p]))
    && Conserved(P, s)
    && FullyDelivered(P, s)
  }

  ghost predicate Inv(P: Program, s: System) {
    Core(P, s) && forall p: nat :: p < P.n ==> BucketsInv(P, s, p)
  }

  /** No operation to d was issued so far ahead that it would share a bucket. */
  ghost predicate WindowOf(P: Program, s: System, d: nat)
    requires Formed(P, s) && d < P.n
  {
    forall q: nat, k: nat
      {:trigger P.plan(q, d, k)} {:trigger s.flight(q, d, k)} {:trigger s.delivered(q, d, k)} ::
      q < P.n && s.flight(q, d, k) + s.delivered(q, d, k) > 0 ==> k < Counter(s, d) + BUCKETS
  }

  ghost predicate InWindow(P: Program, s: System)
    requires Formed(P, s)
  {
    forall d: nat :: d < P.n ==> WindowOf(P, s, d)
  }

  /** If the progress engine takes the bucket of p as full, the superstep has arrived in full. */
  ghost predicate Exact(P: Program, s: System, p: nat)
    requires Formed(P, s) && p < P.n
  {
    var v := s.procs[p].verbs;
    v.request.isActive && !v.request.secondPhase && Arrived(v) ==>
      forall q: nat :: q < P.n ==> DeliveredAt(P, s, q, p, Counter(s, p))
  }

  /** The buckets that are as they should be stay so. */
  ghost predicate KeepsBuckets(P: Program, s: System, s': System)
    requires Formed(P, s) && Formed(P, s')
  {
    forall r: nat :: r < P.n && BucketsInv(P, s, r) ==> BucketsInv(P, s', r)
  }

  /** Neighbours are never more than one superstep apart. */
  ghost predicate Close(P: Program, nb: Neighbours, s: System)
    requires Formed(P, s)
  {
    forall p: nat, q: nat :: p < P.n && q < P.n && nb(p, q) ==> Counter(s, p) <= Counter(s, q) + 1
  }

  // ---------------------------------------------------------------- consequences

  lemma StepInRange(c: nat, b: nat)
    requires b < BUCKETS
    ensures c <= StepIn(c, b) < c + BUCKETS && StepIn(c, b) % BUCKETS == b
  {
  }

  lemma OneStepInRange(c: nat, j: nat, k: nat)
    requires c <= j < c + BUCKETS && c <= k < c + BUCKETS && j % BUCKETS == k % BUCKETS
    ensures j == k
  {
  }

  lemma StepInWindow(c: nat, b: nat)
    requires b < BUCKETS
    ensures c <= StepIn(c, b) < c + BUCKETS && StepIn(c, b) % BUCKETS == b
    ensures StepIn(c + 1, b) == if b == c % BUCKETS then c + BUCKETS else StepIn(c, b)
    ensures forall k: nat :: c <= k < c + BUCKETS && k % BUCKETS == b ==> k == StepIn(c, b)
  {
    StepInRange(c, b);
    StepInRange(c + 1, b);
    forall k: nat | c <= k < c + BUCKETS && k % BUCKETS == b ensures k == StepIn(c, b) {
      OneStepInRange(c, k, StepIn(c, b));
    }
    OneStepInRange(c + 1, StepIn(c + 1, b), if b == c % BUCKETS then c + BUCKETS else StepIn(c, b));
  }

  /** An operation that exists was issued: its source has reached the superstep. */
  lemma StepOfOperation(P: Program, s: System, q: nat, d: nat, k: nat)
    requires Core(P, s) && q < P.n && d < P.n
    requires s.flight(q, d, k) + s.delivered(q, d, k) > 0
    ensures k <= Counter(s, q) && P.plan(q, d, k) > 0
    ensures s.flight(q, d, k) > 0 ==> !Past(s, d, k)
  {
    assert ConservedAt(P, s, q, d, k);
    assert LocalInv(P, q, s.procs[q]);
    assert Past(s, d, k) ==> DeliveredAt(P, s, q, d, k);
  }

  /** Processes that stay close to their neighbours stay in the window. */
  lemma CloseInWindow(P: Program, nb: Neighbours, s: System)
    requires Paced(P, nb) && Core(P, s) && Close(P, nb, s)
    ensures InWindow(P, s)
    ensures forall q: nat, d: nat, k: nat ::
              q < P.n && d < P.n && s.flight(q, d, k) + s.delivered(q, d, k) > 0 ==> k <= Counter(s, d) + 1
  {
    forall q: nat, d: nat, k: nat | q < P.n && d < P.n && s.flight(q, d, k) + s.delivered(q, d, k) > 0
      ensures k <= Counter(s, d) + 1
    {
      StepOfOperation(P, s, q, d, k);
      if q != d {
        assert Hears(P, nb, d, q, k);
      }
    }
  }

  /** A collective call that process q has made is the one its script says. */
  lemma CallIsScripted(P: Program, q: nat, pr: Process, k: nat, i: nat)
    requires LocalInv(P, q, pr)
    requires i < |pr.calls| && i < |Script(P, k, q)|
    ensures pr.calls[i] == Script(P, k, q)[i]
  {
    var j := pr.verbs.counter + 1;
    assert pr.calls <= Script(P, j, q);
    if j <= k {
      ScriptGrows(P, j, k, q);
    } else {
      ScriptGrows(P, k, j, q);
    }
  }

  /** A process that has made a call of superstep k has reached superstep k. */
  lemma CallReached(P: Program, q: nat, pr: Process, k: nat, i: nat)
    requires LocalInv(P, q, pr)
    requires |Script(P, k, q)| <= i < |pr.calls|
    ensures k <= pr.verbs.counter
  {
    if pr.verbs.counter < k {
      ScriptGrows(P, pr.verbs.counter + 1, k, q);
    }
  }

  // ---------------------------------------------------------------- every step keeps it

  lemma InitInv(P: Program)
    ensures Inv(P, Init(P))
  {
    var s := Init(P);
    forall p: nat | p < P.n ensures BucketsInv(P, s, p) && LocalInv(P, p, s.procs[p]) {
      forall b: nat | b < BUCKETS ensures Bucket(P, s, p, b) == 0 {
        IncomingZero(s.delivered, P.n, p, StepIn(0, b));
      }
    }
  }

  /** The buckets of a process only depend on its own record and on what was delivered to it. */
  lemma BucketsKept(P: Program, s: System, s': System, p: nat)
    requires Formed(P, s) && Formed(P, s') && p < P.n && BucketsInv(P, s, p)
    requires s'.procs[p].verbs.recvCounts == s.procs[p].verbs.recvCounts
    requires Counter(s', p) == Counter(s, p) && Consumed(s'.procs[p]) == Consumed(s.procs[p])
    requires s'.delivered == s.delivered
    ensures BucketsInv(P, s', p)
  {
  }

  /** A step of process p inside its superstep that neither issues, delivers nor consumes. */
  lemma QuietStepKeeps(P: Program, s: System, p: nat, pr: Process)
    requires Core(P, s) && p < P.n && LocalInv(P, p, pr)
    requires pr.verbs.counter == Counter(s, p) && pr.verbs.recvCounts == s.procs[p].verbs.recvCounts
    requires Consumed(pr) == Consumed(s.procs[p])
    requires forall d: nat, k: nat :: d < P.n ==> Issued(P, p, pr, d, k) == Issued(P, p, s.procs[p], d, k)
    ensures var s' := s.(procs := s.procs[p := pr]); Core(P, s') && KeepsBuckets(P, s, s')
  {
    var s' := s.(procs := s.procs[p := pr]);
    assert Formed(P, s');
    forall q: nat | q < P.n && BucketsInv(P, s, q) ensures BucketsInv(P, s', q) {
      BucketsKept(P, s, s', q);
    }
    forall q: nat, d: nat, k: nat | q < P.n && d < P.n ensures ConservedAt(P, s', q, d, k) {
      assert ConservedAt(P, s, q, d, k);
    }
    forall q: nat, d: nat, k: nat | q < P.n && d < P.n && Past(s', d, k) ensures DeliveredAt(P, s', q, d, k) {
      assert Past(s, d, k);
      assert DeliveredAt(P, s, q, d, k);
    }
  }

  lemma AckKeeps(P: Program, s: System, p: nat)
    requires Core(P, s) && Enabled(P, s, Ack(p))
    ensures var s' := Apply(P, s, Ack(p)); Core(P, s') && KeepsBuckets(P, s, s')
  {
    var pr := Apply(P, s, Ack(p)).procs[p];
    assert LocalInv(P, p, s.procs[p]);
    assert CallsNow(P, p, pr) == CallsNow(P, p, s.procs[p]);
    QuietStepKeeps(P, s, p, pr);
  }

  lemma IssueKeeps(P: Program, s: System, p: nat, d: nat)
    requires Core(P, s) && Enabled(P, s, Issue(p, d)) && Planned(P, s, Issue(p, d))
    ensures var s' := Apply(P, s, Issue(p, d)); Core(P, s') && KeepsBuckets(P, s, s')
  {
    var s' := Apply(P, s, Issue(p, d));
    var pr, pr' := s.procs[p], s'.procs[p];
    assert LocalInv(P, p, pr);
    assert CallsNow(P, p, pr') == CallsNow(P, p, pr);
    assert LocalInv(P, p, pr');
    forall q: nat | q < P.n && BucketsInv(P, s, q) ensures BucketsInv(P, s', q) {
      BucketsKept(P, s, s', q);
    }
    forall q: nat, e: nat, k: nat | q < P.n && e < P.n ensures ConservedAt(P, s', q, e, k) {
      assert ConservedAt(P, s, q, e, k);
    }
    forall q: nat, e: nat, k: nat | q < P.n && e < P.n && Past(s', e, k) ensures DeliveredAt(P, s', q, e, k) {
      assert Past(s, e, k);
      assert DeliveredAt(P, s, q, e, k);
      assert ConservedAt(P, s, p, d, Counter(s, p));
    }
  }

  lemma CallVoteKeeps(P: Program, s: System, p: nat)
    requires Core(P, s) && Enabled(P, s, CallVote(p))
    ensures var s' := Apply(P, s, CallVote(p)); Core(P, s') && KeepsBuckets(P, s, s')
  {
    var pr, pr' := s.procs[p], Apply(P, s, CallVote(p)).procs[p];
    assert LocalInv(P, p, pr);
    assert CallsNow(P, p, pr) == [] && CallsNow(P, p, pr') == [Vote];
    assert pr'.calls == Script(P, Counter(s, p), p) + [Vote];
    QuietStepKeeps(P, s, p, pr');
  }

  lemma CallSyncKeeps(P: Program, s: System, p: nat)
    requires Agreed(P) && CountsRight(P) && Core(P, s) && Enabled(P, s, CallSync(p)) && Planned(P, s, CallSync(p))
    ensures var s' := Apply(P, s, CallSync(p)); Core(P, s') && KeepsBuckets(P, s, s')
  {
    var pr, pr' := s.procs[p], Apply(P, s, CallSync(p)).procs[p];
    var k := pr.verbs.counter;
    assert LocalInv(P, p, pr);
    assert pr.verbs.numMsgsSync == Row(P, p, k);
    assert AgreedAt(P, k, p, p) && CountRightAt(P, k, p);
    var before := CallsNow(P, p, pr);
    assert before == if P.attr(k, p).mode.Default? then [Vote] else [];
    assert pr'.calls == Script(P, k, p) + BeforeRequest(P, k, p);
    QuietStepKeeps(P, s, p, pr');
  }

  /** Collective call i of process q hands over its counts of superstep k. */
  ghost predicate RowSent(P: Program, s: System, q: nat, i: nat, k: nat)
    requires q < |s.procs|
  {
    i < |s.procs[q].calls| && s.procs[q].calls[i] == Exchange(Row(P, q, k))
  }

  lemma ExchangeEntry(P: Program, s: System, p: nat, q: nat)
    requires Agreed(P) && CountsRight(P) && Core(P, s) && p < P.n && q < P.n
    requires s.procs[p].stage.Exchanging? && s.procs[p].calls != [] && LastCallEntered(s, p)
    ensures RowSent(P, s, q, |s.procs[p].calls| - 1, Counter(s, p))
  {
    var i, k := |s.procs[p].calls| - 1, Counter(s, p);
    assert LocalInv(P, p, s.procs[p]) && LocalInv(P, q, s.procs[q]);
    ScriptsAlike(P, k, p, q);
    StepCallsAlike(P, k, p, q);
    assert AgreedAt(P, k, p, q);
    assert Script(P, k + 1, q) == Script(P, k, q) + StepCalls(P, k, q);
    CallIsScripted(P, q, s.procs[q], k + 1, i);
  }

  lemma {:induction false} RowsSum(P: Program, s: System, p: nat, m: nat, i: nat, k: nat)
    requires |s.procs| == P.n && p < P.n && m <= P.n && Entered(s, i)
    requires forall q: nat :: q < m ==> RowSent(P, s, q, i, k)
    ensures ExchangeSum(s, i, p, m) == Incoming(P.plan, m, p, k)
  {
    if m > 0 {
      RowsSum(P, s, p, m - 1, i, k);
      assert RowSent(P, s, m - 1, i, k);
      assert Row(P, m - 1, k)[p] == P.plan(m - 1, p, k);
    }
  }

  /** The count exchange returns what the program addresses to the caller. */
  lemma ExchangeReturns(P: Program, s: System, p: nat)
    requires Agreed(P) && CountsRight(P) && Core(P, s) && p < P.n
    requires s.procs[p].stage.Exchanging? && s.procs[p].calls != [] && LastCallEntered(s, p)
    ensures ExchangeSum(s, |s.procs[p].calls| - 1, p, P.n) == Incoming(P.plan, P.n, p, Counter(s, p))
  {
    var i: nat := |s.procs[p].calls| - 1;
    forall q: nat | q < P.n ensures RowSent(P, s, q, i, Counter(s, p)) {
      ExchangeEntry(P, s, p, q);
    }
    RowsSum(P, s, p, P.n, i, Counter(s, p));
  }

  /** The process with the sum of the exchange. */
  ghost function ReturnedWith(P: Program, p: nat, pr: Process, sum: nat): Process {
    pr.(verbs := Activate(pr.verbs, P.attr(pr.verbs.counter, p), sum), stage := Computing)
  }

  lemma ReturnedLocal(P: Program, p: nat, pr: Process)
    requires LocalInv(P, p, pr) && pr.stage.Exchanging?
    ensures var t := ReturnedWith(P, p, pr, Incoming(P.plan, P.n, p, pr.verbs.counter));
            && LocalInv(P, p, t) && Consumed(t) == Consumed(pr)
            && forall d: nat, k: nat :: d < P.n ==> Issued(P, p, t, d, k) == Issued(P, p, pr, d, k)
  {
    var t := ReturnedWith(P, p, pr, Incoming(P.plan, P.n, p, pr.verbs.counter));
    assert CallsNow(P, p, t) == CallsNow(P, p, pr);
  }

  lemma ReturnExchangeKeeps(P: Program, s: System, p: nat)
    requires Agreed(P) && CountsRight(P) && Core(P, s) && Enabled(P, s, ReturnExchange(p))
    ensures var s' := Apply(P, s, ReturnExchange(p)); Core(P, s') && KeepsBuckets(P, s, s')
  {
    var pr := s.procs[p];
    var t := ReturnedWith(P, p, pr, Incoming(P.plan, P.n, p, pr.verbs.counter));
    assert Apply(P, s, ReturnExchange(p)) == s.(procs := s.procs[p := t]) by {
      ExchangeReturns(P, s, p);
    }
    assert LocalInv(P, p, pr);
    ReturnedLocal(P, p, pr);
    QuietStepKeeps(P, s, p, t);
  }

  /** A delivery may only spoil a bucket of its target if the operation is a whole round ahead. */
  lemma DeliverKeeps(P: Program, s: System, q: nat, d: nat, k: nat)
    requires Core(P, s) && Enabled(P, s, Deliver(q, d, k))
    ensures Core(P, Apply(P, s, Deliver(q, d, k)))
    ensures forall r: nat :: r < P.n && BucketsInv(P, s, r) && (r == d ==> k < Counter(s, d) + BUCKETS) ==>
                               BucketsInv(P, Apply(P, s, Deliver(q, d, k)), r)
  {
    var s' := Apply(P, s, Deliver(q, d, k));
    StepOfOperation(P, s, q, d, k);
    ArriveLocal(P, d, s.procs[d], k);
    DeliverConserves(P, s, q, d, k);
    forall r: nat | r < P.n && BucketsInv(P, s, r) && (r == d ==> k < Counter(s, d) + BUCKETS)
      ensures BucketsInv(P, s', r)
    {
      DeliverBuckets(P, s, q, d, k, r);
    }
  }

  lemma ArriveLocal(P: Program, d: nat, pr: Process, k: nat)
    requires LocalInv(P, d, pr)
    ensures LocalInv(P, d, pr.(verbs := Arrive(pr.verbs, k)))
  {
    assert CallsNow(P, d, pr.(verbs := Arrive(pr.verbs, k))) == CallsNow(P, d, pr);
  }

  lemma DeliverConserves(P: Program, s: System, q: nat, d: nat, k: nat)
    requires Formed(P, s) && Enabled(P, s, Deliver(q, d, k)) && !Past(s, d, k)
    requires Conserved(P, s) && FullyDelivered(P, s)
    ensures Conserved(P, Apply(P, s, Deliver(q, d, k))) && FullyDelivered(P, Apply(P, s, Deliver(q, d, k)))
  {
    var s' := Apply(P, s, Deliver(q, d, k));
    forall a: nat, b: nat, j: nat | a < P.n && b < P.n ensures ConservedAt(P, s', a, b, j) {
      assert ConservedAt(P, s, a, b, j);
    }
    forall a: nat, b: nat, j: nat | a < P.n && b < P.n && Past(s', b, j) ensures DeliveredAt(P, s', a, b, j) {
      assert Past(s, b, j);
      assert DeliveredAt(P, s, a, b, j);
    }
  }

  lemma DeliverBuckets(P: Program, s: System, q: nat, d: nat, k: nat, p: nat)
    requires Formed(P, s) && Enabled(P, s, Deliver(q, d, k)) && p < P.n && BucketsInv(P, s, p)
    requires !Past(s, d, k) && (p == d ==> k < Counter(s, d) + BUCKETS)
    ensures BucketsInv(P, Apply(P, s, Deliver(q, d, k)), p)
  {
    var s' := Apply(P, s, Deliver(q, d, k));
    forall b: nat | b < BUCKETS ensures s'.procs[p].verbs.recvCounts[b] == Bucket(P, s', p, b) {
      StepInWindow(Counter(s, p), b);
      var j := StepIn(Counter(s, p), b);
      if p == d && j == k {
        IncomingBump(s.delivered, P.n, q, d, k);
      } else {
        IncomingBumpElsewhere(s.delivered, P.n, q, d, k, p, j);
      }
    }
  }

  // ---------------------------------------------------------------- visits of the progress engine

  /** When the bucket holds enough, it holds exactly what was addressed to p in this superstep. */
  lemma EnoughIsEverything(P: Program, s: System, p: nat)
    requires Core(P, s) && p < P.n && BucketsInv(P, s, p)
    requires s.procs[p].verbs.request.isActive && !s.procs[p].verbs.request.secondPhase
    ensures s.procs[p].verbs.recvCounts[Counter(s, p) % BUCKETS] <= s.procs[p].verbs.request.remoteMsgs
    ensures Arrived(s.procs[p].verbs) ==>
              && s.procs[p].verbs.recvCounts[Counter(s, p) % BUCKETS] == s.procs[p].verbs.request.remoteMsgs
              && forall q: nat :: q < P.n ==> DeliveredAt(P, s, q, p, Counter(s, p))
  {
    var k := Counter(s, p);
    assert LocalInv(P, p, s.procs[p]) && BucketsInv(P, s, p);
    StepInWindow(k, k % BUCKETS);
    assert s.procs[p].verbs.recvCounts[k % BUCKETS] == Incoming(s.delivered, P.n, p, k);
    forall q: nat | q < P.n ensures s.delivered(q, p, k) <= P.plan(q, p, k)
    ensures s.delivered(q, p, k) == P.plan(q, p, k) ==> DeliveredAt(P, s, q, p, k) {
      assert ConservedAt(P, s, q, p, k) && LocalInv(P, q, s.procs[q]);
    }
    IncomingBelow(s.delivered, P.plan, P.n, p, k);
  }

  lemma BucketsExact(P: Program, s: System, p: nat)
    requires Core(P, s) && p < P.n && BucketsInv(P, s, p)
    ensures Exact(P, s, p)
  {
    if s.procs[p].verbs.request.isActive && !s.procs[p].verbs.request.secondPhase {
      EnoughIsEverything(P, s, p);
    }
  }

  lemma ConsumeBuckets(P: Program, s: System, p: nat, flag: bool)
    requires Core(P, s) && Enabled(P, s, Visit(p, flag)) && BucketsInv(P, s, p)
    requires var v := s.procs[p].verbs; v.request.withBarrier && !v.request.secondPhase && Arrived(v)
    requires Formed(P, Apply(P, s, Visit(p, flag)))
    ensures BucketsInv(P, Apply(P, s, Visit(p, flag)), p)
  {
    var s' := Apply(P, s, Visit(p, flag));
    EnoughIsEverything(P, s, p);
    forall b: nat | b < BUCKETS ensures s'.procs[p].verbs.recvCounts[b] == Bucket(P, s', p, b) {
      StepInWindow(Counter(s, p), b);
    }
  }

  lemma ConsumeConserves(P: Program, s: System, p: nat, flag: bool)
    requires Core(P, s) && Enabled(P, s, Visit(p, flag)) && Exact(P, s, p)
    requires var v := s.procs[p].verbs; v.request.withBarrier && !v.request.secondPhase && Arrived(v)
    ensures Core(P, Apply(P, s, Visit(p, flag)))
  {
    var s' := Apply(P, s, Visit(p, flag));
    ConsumeLocal(P, p, s.procs[p], flag);
    assert Formed(P, s');
    forall a: nat, b: nat, j: nat | a < P.n && b < P.n ensures ConservedAt(P, s', a, b, j) {
      assert ConservedAt(P, s, a, b, j);
    }
    forall a: nat, b: nat, j: nat | a < P.n && b < P.n && Past(s', b, j) ensures DeliveredAt(P, s', a, b, j) {
      if Past(s, b, j) {
        assert DeliveredAt(P, s, a, b, j);
      } else {
        assert DeliveredAt(P, s, a, p, Counter(s, p));
      }
    }
  }

  /** The bucket of the current superstep is emptied; a barrier is entered. */
  lemma ConsumeKeeps(P: Program, s: System, p: nat, flag: bool)
    requires Core(P, s) && Enabled(P, s, Visit(p, flag)) && Exact(P, s, p)
    requires var v := s.procs[p].verbs; v.request.withBarrier && !v.request.secondPhase && Arrived(v)
    ensures var s' := Apply(P, s, Visit(p, flag)); Core(P, s') && KeepsBuckets(P, s, s')
  {
    var s' := Apply(P, s, Visit(p, flag));
    ConsumeConserves(P, s, p, flag);
    forall q: nat | q < P.n && BucketsInv(P, s, q) ensures BucketsInv(P, s', q) {
      if q == p {
        ConsumeBuckets(P, s, p, flag);
      } else {
        BucketsKept(P, s, s', q);
      }
    }
  }

  lemma ConsumeLocal(P: Program, p: nat, pr: Process, flag: bool)
    requires LocalInv(P, p, pr) && pr.verbs.request.isActive
    requires var v := pr.verbs; v.request.withBarrier && !v.request.secondPhase && Arrived(v)
    ensures LocalInv(P, p, pr.(verbs := Progress(pr.verbs, flag), calls := pr.calls + [Barrier]))
  {
    var pr' := pr.(verbs := Progress(pr.verbs, flag), calls := pr.calls + [Barrier]);
    assert CallsNow(P, p, pr') == CallsNow(P, p, pr) + [Barrier];
  }

  /** A superstep ends only when no neighbour is behind it. */
  lemma NeighboursCaughtUp(P: Program, nb: Neighbours, s: System, p: nat, flag: bool, q: nat)
    requires WellSynced(P, nb) && Inv(P, s) && Enabled(P, s, Visit(p, flag)) && q < P.n
    requires Counter(Apply(P, s, Visit(p, flag)), p) == Counter(s, p) + 1
    ensures nb(p, q) ==> Counter(s, p) <= Counter(s, q)
    ensures P.attr(Counter(s, p), p).barrier ==>
              Counter(s, p) <= Counter(s, q) && Past(s, q, Counter(s, p))
  {
    var k := Counter(s, p);
    assert LocalInv(P, p, s.procs[p]) && LocalInv(P, q, s.procs[q]);
    assert AgreedAt(P, k, p, q);
    if P.attr(k, p).barrier {
      BarrierReached(P, s, p, q);
    } else if nb(p, q) && p != q {
      EnoughIsEverything(P, s, p);
      assert Hears(P, nb, p, q, k);
      assert DeliveredAt(P, s, q, p, k);
      assert ConservedAt(P, s, q, p, k);
    }
  }

  lemma BarrierReached(P: Program, s: System, p: nat, q: nat)
    requires Agreed(P) && Formed(P, s) && p < P.n && q < P.n
    requires LocalInv(P, p, s.procs[p]) && LocalInv(P, q, s.procs[q])
    requires Consumed(s.procs[p]) && LastCallEntered(s, p)
    ensures Counter(s, p) <= Counter(s, q) && Past(s, q, Counter(s, p))
  {
    var k := Counter(s, p);
    var i := |s.procs[p].calls| - 1;
    assert AgreedAt(P, k, p, q);
    ScriptsAlike(P, k, p, q);
    StepCallsAlike(P, k, p, q);
    CallReached(P, q, s.procs[q], k, i);
  }

  /** The superstep ends. */
  lemma FinishKeeps(P: Program, s: System, p: nat, flag: bool)
    requires Core(P, s) && Enabled(P, s, Visit(p, flag)) && Exact(P, s, p)
    requires Counter(Apply(P, s, Visit(p, flag)), p) == Counter(s, p) + 1
    ensures Core(P, Apply(P, s, Visit(p, flag)))
    ensures forall r: nat :: r < P.n && BucketsInv(P, s, r) && (r == p ==> WindowOf(P, s, p)) ==>
                               BucketsInv(P, Apply(P, s, Visit(p, flag)), r)
  {
    var s' := Apply(P, s, Visit(p, flag));
    FinishLocal(P, p, s.procs[p], flag);
    FinishConserves(P, s, p, flag);
    forall r: nat | r < P.n && BucketsInv(P, s, r) && (r == p ==> WindowOf(P, s, p)) ensures BucketsInv(P, s', r) {
      if r == p {
        FinishBuckets(P, s, p, flag);
      } else {
        BucketsKept(P, s, s', r);
      }
    }
  }

  lemma FinishLocal(P: Program, p: nat, pr: Process, flag: bool)
    requires LocalInv(P, p, pr) && pr.verbs.request.isActive
    requires Progress(pr.verbs, flag).counter == pr.verbs.counter + 1
    ensures LocalInv(P, p, pr.(verbs := Progress(pr.verbs, flag)))
  {
    var pr' := pr.(verbs := Progress(pr.verbs, flag));
    var k := pr.verbs.counter;
    assert CallsNow(P, p, pr') == [];
    assert CallsNow(P, p, pr) == StepCalls(P, k, p);
    assert pr'.calls == Script(P, k + 1, p) + [];
  }

  lemma FinishConserves(P: Program, s: System, p: nat, flag: bool)
    requires Core(P, s) && Enabled(P, s, Visit(p, flag)) && Exact(P, s, p)
    requires Counter(Apply(P, s, Visit(p, flag)), p) == Counter(s, p) + 1
    ensures Conserved(P, Apply(P, s, Visit(p, flag))) && FullyDelivered(P, Apply(P, s, Visit(p, flag)))
  {
    var s' := Apply(P, s, Visit(p, flag));
    assert LocalInv(P, p, s.procs[p]);
    forall a: nat, b: nat, j: nat | a < P.n && b < P.n ensures ConservedAt(P, s', a, b, j) {
      assert ConservedAt(P, s, a, b, j);
    }
    forall a: nat, b: nat, j: nat | a < P.n && b < P.n && Past(s', b, j) ensures DeliveredAt(P, s', a, b, j) {
      if Past(s, b, j) {
        assert DeliveredAt(P, s, a, b, j);
      } else {
        assert DeliveredAt(P, s, a, p, Counter(s, p));
      }
    }
  }

  lemma FinishBuckets(P: Program, s: System, p: nat, flag: bool)
    requires Core(P, s) && Enabled(P, s, Visit(p, flag)) && BucketsInv(P, s, p) && WindowOf(P, s, p)
    requires Counter(Apply(P, s, Visit(p, flag)), p) == Counter(s, p) + 1
    ensures BucketsInv(P, Apply(P, s, Visit(p, flag)), p)
  {
    var s' := Apply(P, s, Visit(p, flag));
    var k := Counter(s, p);
    assert LocalInv(P, p, s.procs[p]);
    NothingNext(P, s, p);
    if !Consumed(s.procs[p]) {
      EnoughIsEverything(P, s, p);
    }
    forall b: nat | b < BUCKETS ensures s'.procs[p].verbs.recvCounts[b] == Bucket(P, s', p, b) {
      assert s.procs[p].verbs.recvCounts[b] == Bucket(P, s, p, b);
      StepInWindow(k, b);
    }
  }

  /** Nothing has arrived for the superstep that takes over the bucket of this one. */
  lemma NothingNext(P: Program, s: System, p: nat)
    requires Formed(P, s) && p < P.n && WindowOf(P, s, p)
    ensures Incoming(s.delivered, P.n, p, Counter(s, p) + BUCKETS) == 0
  {
    var next := Counter(s, p) + BUCKETS;
    forall q: nat | q < P.n ensures s.delivered(q, p, next) == 0 {
    }
    IncomingZero(s.delivered, P.n, p, next);
  }

  lemma VisitKeeps(P: Program, s: System, p: nat, flag: bool)
    requires Core(P, s) && Enabled(P, s, Visit(p, flag)) && Exact(P, s, p)
    ensures Core(P, Apply(P, s, Visit(p, flag)))
    ensures forall r: nat :: r < P.n && BucketsInv(P, s, r) && WindowOf(P, s, r) ==>
                               BucketsInv(P, Apply(P, s, Visit(p, flag)), r)
  {
    var v := s.procs[p].verbs;
    assert LocalInv(P, p, s.procs[p]);
    if Progress(v, flag).counter == v.counter + 1 {
      FinishKeeps(P, s, p, flag);
    } else if v.request.withBarrier && !v.request.secondPhase && Arrived(v) {
      ConsumeKeeps(P, s, p, flag);
    } else {
      QuietStepKeeps(P, s, p, s.procs[p]);
    }
  }

  /**
   * A planned step keeps the core, if no bucket is taken as full too early, and the buckets of
   * every process that nobody has run a whole round of buckets ahead of.
   */
  lemma StepKeepsCore(P: Program, s: System, e: Event, s': System)
    requires Agreed(P) && CountsRight(P) && Core(P, s) && PlannedStep(P, s, e, s')
    requires e.Visit? ==> Exact(P, s, e.p)
    ensures Core(P, s')
    ensures forall r: nat :: r < P.n && BucketsInv(P, s, r) && WindowOf(P, s, r) ==> BucketsInv(P, s', r)
  {
    match e
    case Issue(p, d) => IssueKeeps(P, s, p, d);
    case Ack(p) => AckKeeps(P, s, p);
    case Deliver(q, d, k) => DeliverKeeps(P, s, q, d, k);
    case CallVote(p) => CallVoteKeeps(P, s, p);
    case CallSync(p) => CallSyncKeeps(P, s, p);
    case ReturnExchange(p) => ReturnExchangeKeeps(P, s, p);
    case Visit(p, flag) => VisitKeeps(P, s, p, flag);
  }

  /** A planned step keeps the invariant as long as nobody ran a whole round of buckets ahead. */
  lemma StepKeeps(P: Program, s: System, e: Event, s': System)
    requires Agreed(P) && CountsRight(P) && Inv(P, s) && InWindow(P, s) && PlannedStep(P, s, e, s')
    ensures Inv(P, s')
  {
    if e.Visit? {
      BucketsExact(P, s, e.p);
    }
    StepKeepsCore(P, s, e, s');
  }

  lemma CounterSteps(P: Program, s: System, e: Event, s': System, p: nat)
    requires Step(P, s, e, s') && p < P.n
    ensures Counter(s', p) == Counter(s, p) || (e.Visit? && e.p == p && Counter(s', p) == Counter(s, p) + 1)
  {
  }

  lemma StepKeepsClose(P: Program, nb: Neighbours, s: System, e: Event, s': System)
    requires WellSynced(P, nb) && Inv(P, s) && Close(P, nb, s) && PlannedStep(P, s, e, s') && Formed(P, s')
    ensures Close(P, nb, s')
  {
    forall p: nat, q: nat | p < P.n && q < P.n && nb(p, q) ensures Counter(s', p) <= Counter(s', q) + 1 {
      CounterSteps(P, s, e, s', p);
      CounterSteps(P, s, e, s', q);
      if Counter(s', p) == Counter(s, p) + 1 {
        NeighboursCaughtUp(P, nb, s, p, e.flag, q);
      }
    }
  }

  lemma {:induction false} RunInv(P: Program, nb: Neighbours, run: seq<System>, events: seq<Event>, i: nat)
    requires WellSynced(P, nb) && IsPlannedRun(P, run, events) && i < |run|
    ensures Inv(P, run[i]) && Close(P, nb, run[i])
  {
    if i == 0 {
      InitInv(P);
    } else {
      RunInv(P, nb, run, events, i - 1);
      CloseInWindow(P, nb, run[i - 1]);
      StepKeeps(P, run[i - 1], events[i - 1], run[i]);
      StepKeepsClose(P, nb, run[i - 1], events[i - 1], run[i]);
    }
  }
}
