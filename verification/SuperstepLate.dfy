/**
 * Why nothing may be issued between the moment a sync takes the counts over and the end of its
 * superstep.  Such a late operation still carries the number of the superstep, but nobody counts it
 * there, so its arrival can stand in for one that is missing.
 */
module SuperstepLate {
  import opened Tallies
  import opened Verbs
  import opened Superstep
  import opened SuperstepSafety
  import opened SuperstepRuns
  import opened SuperstepPrograms
  import opened SuperstepLimits
  import opened SuperstepWindow

  datatype Move = Regular(e: Event) | Late(p: nat, d: nat)

  /** `may(p, d)` says whether p may post operations to d while its sync is under way. */
  ghost predicate Allowed(P: Program, may: (nat, nat) -> bool, s: System, m: Move)
    requires Formed(P, s)
  {
    match m
    case Regular(e) => Enabled(P, s, e) && InOrder(s, e)
    case Late(p, d) => p < P.n && d < P.n && Synced(s.procs[p]) && may(p, d)
  }

  ghost function Perform(P: Program, may: (nat, nat) -> bool, s: System, m: Move): System
    requires Formed(P, s) && Allowed(P, may, s, m)
  {
    match m
    case Regular(e) => Apply(P, s, e)
    case Late(p, d) => AfterPost(s, p, d)
  }

  ghost predicate IsMove(P: Program, may: (nat, nat) -> bool, s: System, m: Move, t: System) {
    Formed(P, s) && Allowed(P, may, s, m) && t == Perform(P, may, s, m)
  }

  ghost predicate IsLateRun(P: Program, may: (nat, nat) -> bool, run: seq<System>, moves: seq<Move>) {
    && |run| == |moves| + 1 && run[0] == Init(P)
    && forall i: nat :: i < |moves| ==> IsMove(P, may, run[i], moves[i], run[i + 1])
  }

  /** The operations issued in time during the first `m` moves: those the syncs count. */
  ghost function InTime(run: seq<System>, moves: seq<Move>, m: nat): Tally
    requires m <= |moves| < |run|
  {
    if m == 0 then (a, b, c) => 0
    else if moves[m - 1].Regular? then Counted(run[m - 1], moves[m - 1].e, InTime(run, moves, m - 1))
    else InTime(run, moves, m - 1)
  }

  /** If move i ends a superstep of p, all that was addressed to p in it in time has been delivered. */
  ghost predicate DeliversInTime(P: Program, run: seq<System>, moves: seq<Move>, i: nat, p: nat)
    requires i < |moves| < |run|
  {
    |run[i].procs| == |run[i + 1].procs| == P.n && p < P.n && Counter(run[i + 1], p) != Counter(run[i], p) ==>
      forall q: nat :: q < P.n ==>
                         run[i].delivered(q, p, Counter(run[i], p))
                         >= InTime(run, moves, |moves|)(q, p, Counter(run[i], p))
  }

  ghost predicate AlwaysInTime(P: Program, may: (nat, nat) -> bool) {
    forall run: seq<System>, moves: seq<Move>, i: nat, p: nat ::
      IsLateRun(P, may, run, moves) && i < |moves| ==> DeliversInTime(P, run, moves, i, p)
  }

  // ---------------------------------------------------------------- without late operations

  ghost predicate NobodyMay(P: Program, may: (nat, nat) -> bool) {
    forall p: nat, d: nat :: p < P.n && d < P.n ==> !may(p, d)
  }

  ghost function Events(moves: seq<Move>): seq<Event>
    requires forall i: nat :: i < |moves| ==> moves[i].Regular?
  {
    seq(|moves|, i requires 0 <= i < |moves| => moves[i].e)
  }

  lemma {:induction false} SameTally(run: seq<System>, moves: seq<Move>, m: nat)
    requires m <= |moves| < |run| && forall i: nat :: i < |moves| ==> moves[i].Regular?
    ensures InTime(run, moves, m) == IssuedBy(run, Events(moves), m)
  {
    if m > 0 {
      SameTally(run, moves, m - 1);
    }
  }

  lemma NoneLateDelivers(P: Program, may: (nat, nat) -> bool)
    requires AllDefault(P) && NobodyMay(P, may)
    ensures AlwaysInTime(P, may)
  {
    forall run: seq<System>, moves: seq<Move>, i: nat, p: nat | IsLateRun(P, may, run, moves) && i < |moves|
      ensures DeliversInTime(P, run, moves, i, p)
    {
      forall j: nat | j < |moves| ensures moves[j].Regular? {
        assert IsMove(P, may, run[j], moves[j], run[j + 1]);
      }
      var events := Events(moves);
      forall j: nat | j < |events| ensures Step(P, run[j], events[j], run[j + 1]) {
        assert IsMove(P, may, run[j], moves[j], run[j + 1]);
      }
      SameTally(run, moves, |moves|);
      if |run[i].procs| == |run[i + 1].procs| == P.n && p < P.n && Counter(run[i + 1], p) != Counter(run[i], p) {
        DefaultRunDelivers(P, run, events, i, p);
      }
    }
  }

  // ---------------------------------------------------------------- everybody waits for what is in flight

  /** Process `source` addresses one operation to d in superstep 0, and nobody anything else. */
  ghost function OneOperation(P: Program, source: nat, d: nat): Program {
    P.(plan := (a: nat, b: nat, k: nat) => if a == source && b == d && k == 0 then 1 else 0)
  }

  ghost predicate VotingAt(s: System, r: nat)
    requires r < |s.procs|
  {
    Counter(s, r) == 0 && s.procs[r].stage.Voting? && !s.procs[r].verbs.request.isActive
  }

  ghost predicate Voters(s: System, r: nat, c: nat)
    requires r < |s.procs|
  {
    Untouched(s, r) && if r < c then VotingAt(s, r) else IdleAt(s, r, 0)
  }

  lemma AllVote(F: Program, c: nat) returns (s: System)
    requires AllDefault(F) && Agreed(F) && CountsRight(F) && c <= F.n
    ensures Ready(F, s) && forall r: nat :: r < F.n ==> Voters(s, r, c)
  {
    if c == 0 {
      s := Init(F);
      assert ShortRun(F, [s], [], s);
    } else {
      var t := AllVote(F, c - 1);
      assert Voters(t, c - 1, c - 1);
      assert F.attr(0, c - 1) == Attr(Default, true);
      s := Take(F, t, CallVote(c - 1));
      forall r: nat | r < F.n ensures Voters(s, r, c) {
        assert Voters(t, r, c - 1) && (r != c - 1 ==> SamePlace(t, s, r));
      }
    }
  }

  /** The collective calls of process r in superstep 0. */
  lemma CallsOfDefault(F: Program, s: System, r: nat)
    requires AllDefault(F) && Ready(F, s) && r < F.n && Counter(s, r) == 0
    ensures s.procs[r].stage.Voting? && !s.procs[r].verbs.request.isActive ==> |s.procs[r].calls| == 1
    ensures s.procs[r].stage.Exchanging? ==> |s.procs[r].calls| == 2
    ensures s.procs[r].verbs.request.isActive ==> |s.procs[r].calls| == if Consumed(s.procs[r]) then 3 else 2
  {
    EarlyLocal(F, s, r);
    assert F.attr(0, r) == Attr(Default, true);
    assert Script(F, 0, r) == [] && BeforeRequest(F, 0, r) == [Vote, Exchange(Row(F, r, 0))];
    assert StepCalls(F, 0, r) == [Vote, Exchange(Row(F, r, 0)), Barrier];
  }

  ghost predicate Syncers(s: System, r: nat, c: nat)
    requires r < |s.procs|
  {
    Untouched(s, r) && if r < c then ExchangingAt(s, r, 0) else VotingAt(s, r)
  }

  lemma AllSync(F: Program, c: nat) returns (s: System)
    requires AllDefault(F) && Agreed(F) && CountsRight(F) && c <= F.n
    ensures Ready(F, s) && forall r: nat :: r < F.n ==> Syncers(s, r, c)
  {
    if c == 0 {
      s := AllVote(F, F.n);
      forall r: nat | r < F.n ensures Syncers(s, r, c) {
        assert Voters(s, r, F.n);
      }
    } else {
      var p := c - 1;
      var t := AllSync(F, p);
      assert Syncers(t, p, p);
      var u := IssueAll(F, t, p, F.n);
      var v := AckAll(F, u, p);
      Chain(t, u, v, p);
      CallsOfDefault(F, v, p);
      forall r: nat | r < F.n ensures |v.procs[r].calls| >= 1 {
        assert Syncers(t, r, p) && (r != p ==> SamePlace(t, v, r));
        CallsOfDefault(F, v, r);
      }
      assert F.attr(0, p) == Attr(Default, true);
      s := Take(F, v, CallSync(p));
      forall r: nat | r < F.n ensures Syncers(s, r, c) {
        assert Syncers(t, r, p) && (r != p ==> SamePlace(t, v, r) && SamePlace(v, s, r));
      }
    }
  }

  ghost predicate Waiters(s: System, r: nat, c: nat)
    requires r < |s.procs|
  {
    && Untouched(s, r)
    && if r < c then WaitingAt(s, r, 0) && !Consumed(s.procs[r]) else ExchangingAt(s, r, 0)
  }

  lemma AllReturn(F: Program, c: nat) returns (s: System)
    requires AllDefault(F) && Agreed(F) && CountsRight(F) && c <= F.n
    ensures Ready(F, s) && forall r: nat :: r < F.n ==> Waiters(s, r, c)
  {
    if c == 0 {
      s := AllSync(F, F.n);
      forall r: nat | r < F.n ensures Waiters(s, r, c) {
        assert Syncers(s, r, F.n);
      }
    } else {
      var p := c - 1;
      var t := AllReturn(F, p);
      assert Waiters(t, p, p);
      EarlyLocal(F, t, p);
      forall r: nat | r < F.n ensures |t.procs[r].calls| == 2 {
        assert Waiters(t, r, p);
        CallsOfDefault(F, t, r);
      }
      s := Take(F, t, ReturnExchange(p));
      forall r: nat | r < F.n ensures Waiters(s, r, c) {
        assert Waiters(t, r, p) && (r != p ==> SamePlace(t, s, r));
      }
    }
  }

  /** Of the first c processes all but d, which has something to wait for, are in the barrier. */
  ghost predicate Enterers(s: System, r: nat, d: nat, c: nat)
    requires r < |s.procs|
  {
    Untouched(s, r) && WaitingAt(s, r, 0) && (Consumed(s.procs[r]) <==> r < c && r != d)
  }

  lemma AllEnter(P: Program, source: nat, d: nat, c: nat) returns (s: System)
    requires AllDefault(P) && c <= P.n
    ensures var F := OneOperation(P, source, d);
            Ready(F, s) && forall r: nat :: r < F.n ==> Enterers(s, r, d, c)
  {
    var F := OneOperation(P, source, d);
    DefaultIsWellSynced(F);
    if c == 0 {
      s := AllReturn(F, F.n);
      forall r: nat | r < F.n ensures Enterers(s, r, d, c) {
        assert Waiters(s, r, F.n);
      }
    } else {
      var p := c - 1;
      var t := AllEnter(P, source, d, p);
      s := t;
      assert Enterers(t, p, d, p);
      if p != d {
        EarlyLocal(F, t, p);
        IncomingZero(F.plan, F.n, p, 0);
        assert F.attr(0, p) == Attr(Default, true);
        s := Take(F, t, Visit(p, false));
      }
      forall r: nat | r < F.n ensures Enterers(s, r, d, c) && Counter(s, r) < BUCKETS {
        assert Enterers(t, r, d, p) && (r != p ==> SamePlace(t, s, r));
      }
    }
  }

  // ---------------------------------------------------------------- one late operation

  /** Everybody but d is in the barrier; d waits for the operation of `source`, which is in flight. */
  ghost predicate OneMissing(P: Program, s: System, source: nat, d: nat, p: nat) {
    && Formed(P, s) && source < P.n && d < P.n && p < P.n && p != source
    && (forall r: nat :: r < P.n ==> InBarrier(s, r, d))
    && s.procs[d].verbs.recvCounts[0] == 0 && s.procs[d].verbs.request.remoteMsgs == 1
    && s.procs[d].verbs.request.withBarrier
    && s.flight(source, d, 0) == 1 && s.delivered(source, d, 0) == 0
  }

  ghost predicate InBarrier(s: System, r: nat, d: nat)
    requires r < |s.procs|
  {
    && WaitingAt(s, r, 0) && (r != d <==> Consumed(s.procs[r]))
    && |s.procs[r].calls| == if r == d then 2 else 3
  }

  lemma ReachMissing(P: Program, source: nat, d: nat, p: nat) returns (s: System)
    requires AllDefault(P) && source < P.n && d < P.n && p < P.n && p != source
    ensures Early(OneOperation(P, source, d), s) && OneMissing(P, s, source, d, p)
  {
    var F := OneOperation(P, source, d);
    DefaultIsWellSynced(F);
    s := AllEnter(P, source, d, P.n);
    EarlyInv(F, s);
    forall r: nat | r < P.n ensures InBarrier(s, r, d) {
      assert Enterers(s, r, d, P.n);
      CallsOfDefault(F, s, r);
    }
    assert Enterers(s, d, d, P.n) && InBarrier(s, source, d);
    assert LocalInv(F, d, s.procs[d]) && BucketsInv(F, s, d) && ConservedAt(F, s, source, d, 0);
    assert F.attr(0, d) == Attr(Default, true);
    OnlyFrom(F.plan, F.n, source, d, 0);
    IncomingZero(s.delivered, F.n, d, 0);
    StepInWindow(0, 0);
    assert s.procs[d].verbs.recvCounts[0] == Bucket(F, s, d, 0);
  }

  /** Process p posts another operation to d, and d takes it for the missing one. */
  lemma Mistake(P: Program, may: (nat, nat) -> bool, s: System, source: nat, d: nat, p: nat)
    returns (t: System, u: System, v: System, w: System)
    requires AllDefault(P) && OneMissing(P, s, source, d, p) && may(p, d)
    ensures IsMove(P, may, s, Late(p, d), t)
    ensures IsMove(P, may, t, Regular(Deliver(p, d, 0)), u)
    ensures IsMove(P, may, u, Regular(Visit(d, false)), v)
    ensures IsMove(P, may, v, Regular(Visit(d, true)), w)
    ensures |v.procs| == |w.procs| == P.n && Counter(v, d) == 0 && Counter(w, d) == 1
    ensures v.delivered(source, d, 0) == 0
  {
    assert InBarrier(s, d, d) && InBarrier(s, p, d);
    t := AfterPost(s, p, d);
    assert t.flight(p, d, 0) > 0;
    u := Apply(P, t, Deliver(p, d, 0));
    v := Apply(P, u, Visit(d, false));
    forall r: nat | r < P.n ensures |v.procs[r].calls| == 3 {
      assert InBarrier(s, r, d);
    }
    w := Apply(P, v, Visit(d, true));
  }

  lemma LateRunGoesOn(
    P: Program, may: (nat, nat) -> bool, run: seq<System>, moves: seq<Move>, s: System, m: Move, t: System)
    requires IsLateRun(P, may, run, moves) && run[|moves|] == s && IsMove(P, may, s, m, t)
    ensures IsLateRun(P, may, run + [t], moves + [m])
    ensures forall q: nat, d: nat, k: nat ::
              InTime(run + [t], moves + [m], |moves| + 1)(q, d, k) >= InTime(run, moves, |moves|)(q, d, k)
  {
    var run', moves' := run + [t], moves + [m];
    forall i: nat | i < |moves'| ensures IsMove(P, may, run'[i], moves'[i], run'[i + 1]) {
      assert i < |moves| ==> IsMove(P, may, run[i], moves[i], run[i + 1]);
    }
    InTimePrefix(run, moves, run', moves', |moves|);
  }

  lemma {:induction false} InTimePrefix(
    run: seq<System>, moves: seq<Move>, run': seq<System>, moves': seq<Move>, m: nat)
    requires m <= |moves| < |run| && |moves'| < |run'| && run <= run' && moves <= moves'
    ensures InTime(run', moves', m) == InTime(run, moves, m)
  {
    if m > 0 {
      InTimePrefix(run, moves, run', moves', m - 1);
    }
  }

  /** What has been issued is in flight or delivered. */
  lemma {:induction false} IssuedExists(
    P: Program, run: seq<System>, events: seq<Event>, j: nat, q: nat, d: nat, k: nat)
    requires IsPlannedRun(P, run, events) && j <= |events|
    ensures run[j].flight(q, d, k) + run[j].delivered(q, d, k) == IssuedBy(run, events, j)(q, d, k)
  {
    if j > 0 {
      IssuedExists(P, run, events, j - 1, q, d, k);
      assert PlannedStep(P, run[j - 1], events[j - 1], run[j]);
    }
  }

  ghost function AsMoves(events: seq<Event>): seq<Move> {
    seq(|events|, i requires 0 <= i < |events| => Regular(events[i]))
  }

  /** An ordered run of the protocol is a run in which nobody happens to be late. */
  lemma RegularRun(P: Program, F: Program, may: (nat, nat) -> bool, run: seq<System>, events: seq<Event>)
    requires F == P.(plan := F.plan) && IsPlannedRun(F, run, events) && IsOrdered(run, events)
    ensures IsLateRun(P, may, run, AsMoves(events))
    ensures InTime(run, AsMoves(events), |events|) == IssuedBy(run, events, |events|)
  {
    var moves := AsMoves(events);
    forall i: nat | i < |moves| ensures IsMove(P, may, run[i], moves[i], run[i + 1]) {
      assert PlannedStep(F, run[i], events[i], run[i + 1]) && InOrder(run[i], events[i]);
    }
    assert Events(moves) == events;
    SameTally(run, moves, |moves|);
  }

  /**
   * If p may post late to d, then for any other process there is a run in which d leaves superstep 0
   * although an operation of that process, issued in time, has not arrived.
   */
  lemma LateMisleads(P: Program, may: (nat, nat) -> bool, p: nat, d: nat, source: nat)
    returns (run: seq<System>, moves: seq<Move>, i: nat)
    requires AllDefault(P) && p < P.n && d < P.n && source < P.n && p != source && may(p, d)
    ensures IsLateRun(P, may, run, moves) && i < |moves| && |run[i].procs| == |run[i + 1].procs| == P.n
    ensures Counter(run[i], d) == 0 && Counter(run[i + 1], d) == 1
    ensures run[i].delivered(source, d, 0) == 0 < InTime(run, moves, |moves|)(source, d, 0)
  {
    var F := OneOperation(P, source, d);
    var s := ReachMissing(P, source, d, p);
    var before, events :| ShortRun(F, before, events, s);
    RegularRun(P, F, may, before, events);
    IssuedExists(F, before, events, |events|, source, d, 0);
    var t, u, v, w := Mistake(P, may, s, source, d, p);
    var steps := AsMoves(events);
    LateRunGoesOn(P, may, before, steps, s, Late(p, d), t);
    LateRunGoesOn(P, may, before + [t], steps + [Late(p, d)], t, Regular(Deliver(p, d, 0)), u);
    var run', moves' := before + [t] + [u], steps + [Late(p, d)] + [Regular(Deliver(p, d, 0))];
    LateRunGoesOn(P, may, run', moves', u, Regular(Visit(d, false)), v);
    LateRunGoesOn(P, may, run' + [v], moves' + [Regular(Visit(d, false))], v, Regular(Visit(d, true)), w);
    run, moves := run' + [v] + [w], moves' + [Regular(Visit(d, false))] + [Regular(Visit(d, true))];
    i := |events| + 3;
  }

  /** With two processes or more, default syncs deliver exactly if nobody may post late. */
  lemma DeliveryNeedsNoneLate(P: Program, may: (nat, nat) -> bool)
    requires AllDefault(P) && P.n >= 2
    ensures AlwaysInTime(P, may) <==> NobodyMay(P, may)
  {
    if NobodyMay(P, may) {
      NoneLateDelivers(P, may);
    } else {
      var p: nat, d: nat :| p < P.n && d < P.n && may(p, d);
      var source := if p == 0 then 1 else 0;
      var run, moves, i := LateMisleads(P, may, p, d, source);
      assert !DeliversInTime(P, run, moves, i, d);
    }
  }
}
