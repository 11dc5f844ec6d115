/** Why a round of messages comes to its end. */
module FragmentProgress {
  import opened SwapRemoval
  import opened Messaging
  import opened Fragments
  import opened FragmentRuns

  /** The bytes of the sends from number k on, and two steps for each. */
  ghost function Unposted<B>(R: Round<B>, p: nat, k: nat): nat
    decreases |R.sends(p)| - k
  {
    if k >= |R.sends(p)| then 0 else |R.sends(p)[k].data| + 2 + Unposted(R, p, k + 1)
  }

  /** The bytes of the receives from number k on, and a step for each. */
  ghost function Unopened<B>(R: Round<B>, p: nat, k: nat): nat
    decreases |R.recvs(p)| - k
  {
    if k >= |R.recvs(p)| then 0 else |R.recvs(p)[k]| + 1 + Unopened(R, p, k + 1)
  }

  function StagesLeft(stage: Stage): nat {
    match stage
    case Starting => 4
    case Waiting => 3
    case Draining => 2
    case InBarrier => 1
    case Done => 0
  }

  /** A bound on the useful steps a process still takes. */
  ghost function Load<B>(R: Round<B>, p: nat, pr: Process<B>): nat {
    var b := pr.box;
    StagesLeft(pr.stage) + Unposted(R, p, pr.posted) + Unopened(R, p, |b.recvs|)
    + Unsent(b.large, R.limit) + |b.large| + Unreceived(R, p, b.recvs, |b.recvs|)
  }

  // ---------------------------------------------------------------- every useful step lowers it

  lemma IsendLowers<B(!new)>(R: Round<B>, s: System<B>, p: nat)
    requires Matched(R) && Inv(R, s) && Enabled(R, s, Isend(p))
    ensures Load(R, p, Apply(R, s, Isend(p)).procs[p]) < Load(R, p, s.procs[p])
  {
    var was, now := s.procs[p].box.large, Apply(R, s, Isend(p)).procs[p].box.large;
    if |now| > |was| {
      assert now[..|now| - 1] == was;
    } else {
      assert now == was;
    }
  }

  lemma IrecvLowers<B(!new)>(R: Round<B>, s: System<B>, p: nat)
    requires Matched(R) && Inv(R, s) && Enabled(R, s, Irecv(p))
    ensures Load(R, p, Apply(R, s, Irecv(p)).procs[p]) < Load(R, p, s.procs[p])
  {
    var was, now := s.procs[p].box.recvs, Apply(R, s, Irecv(p)).procs[p].box.recvs;
    UnreceivedPrefix(R, p, was, now, |was|);
  }

  lemma {:induction false} UnreceivedPrefix<B>(R: Round<B>, p: nat, a: seq<Recv<B>>, b: seq<Recv<B>>, m: nat)
    requires m <= |a| && a <= b
    ensures Unreceived(R, p, b, m) == Unreceived(R, p, a, m)
  {
    if m > 0 {
      UnreceivedPrefix(R, p, a, b, m - 1);
    }
  }

  /** A sweep drops entries without anything left to send. */
  lemma {:induction false} SweepKeepsUnsent(large: seq<Entry>, i: nat, limit: nat)
    requires i <= |large|
    ensures Unsent(SweepDown(large, IsNull, i), limit) == Unsent(large, limit)
    ensures |SweepDown(large, IsNull, i)| <= |large|
    ensures (exists j: nat :: j < i && IsNull(large[j])) ==> |SweepDown(large, IsNull, i)| < |large|
    decreases i
  {
    if i > 0 {
      if IsNull(large[i - 1]) {
        var last := large[|large| - 1];
        UnsentUpdate(large, i - 1, last, limit);
        assert large[i - 1 := last][|large| - 1] == last;
        SweepKeepsUnsent(DropAt(large, i - 1), i - 1, limit);
      } else {
        SweepKeepsUnsent(large, i - 1, limit);
      }
    }
  }

  /** Whatever useful step is taken, its process has less left to do. */
  lemma UsefulLowers<B(!new)>(R: Round<B>, s: System<B>, e: Event)
    requires Matched(R) && Inv(R, s) && Enabled(R, s, e) && Safe(R, s, e) && Useful(s, e)
    ensures Load(R, e.p, Apply(R, s, e).procs[e.p]) < Load(R, e.p, s.procs[e.p])
  {
    match e
    case Isend(p) => IsendLowers(R, s, p);
    case Irecv(p) => IrecvLowers(R, s, p);
    case Continue(p, j) => ContinueProgresses(R, s, p, j);
    case Dequeue(p) => SweepKeepsUnsent(s.procs[p].box.large, |s.procs[p].box.large|, R.limit);
    case Receive(p, src, tag) => ReceiveProgresses(R, s, p, src, tag);
    case _ =>
  }

  // ---------------------------------------------------------------- every run can be brought to its end

  ghost function Loads<B>(R: Round<B>, s: System<B>, m: nat): nat
    requires m <= |s.procs|
  {
    if m == 0 then 0 else Loads(R, s, m - 1) + Load(R, m - 1, s.procs[m - 1])
  }

  lemma {:induction false} LoadsChange<B>(R: Round<B>, s: System<B>, t: System<B>, p: nat, m: nat)
    requires m <= |s.procs| == |t.procs| && p < |s.procs|
    requires forall q: nat :: q < |s.procs| && q != p ==> t.procs[q] == s.procs[q]
    requires Load(R, p, t.procs[p]) < Load(R, p, s.procs[p])
    ensures if p < m then Loads(R, t, m) < Loads(R, s, m) else Loads(R, t, m) == Loads(R, s, m)
  {
    if m > 0 {
      LoadsChange(R, s, t, p, m - 1);
    }
  }

  ghost predicate EndsIn<B(!new)>(R: Round<B>, run: seq<System<B>>, s: System<B>) {
    IsRun(R, run) && run[|run| - 1] == s
  }

  ghost predicate AllDone<B>(R: Round<B>, s: System<B>) {
    |s.procs| == R.n && forall p: nat :: p < R.n ==> s.procs[p].stage.Done?
  }

  /** A step that needs no buffering by MPI, and that leads on. */
  lemma GoOn<B(!new)>(R: Round<B>, run: seq<System<B>>, s: System<B>, p: nat) returns (t: System<B>)
    requires Matched(R) && EndsIn(R, run, s) && Inv(R, s) && p < R.n && !s.procs[p].stage.Done?
    ensures EndsIn(R, run + [t], t) && Inv(R, t) && |t.procs| == |s.procs| == R.n
    ensures Loads(R, t, R.n) < Loads(R, s, R.n)
  {
    var e := NeverStuck(R, s, p);
    StepKeeps(R, s, e);
    UsefulLowers(R, s, e);
    t := Apply(R, s, e);
    LoadsChange(R, s, t, e.p, R.n);
    var longer := run + [t];
    forall i | 0 <= i < |longer| - 1 ensures IsStep(R, longer[i], longer[i + 1]) {
      if i < |run| - 1 {
        assert IsStep(R, run[i], run[i + 1]);
      } else {
        assert IsStep(R, s, t);
      }
    }
  }

  lemma RoundEnds<B(!new)>(R: Round<B>, run: seq<System<B>>, s: System<B>)
    returns (run': seq<System<B>>, t: System<B>)
    requires Matched(R) && EndsIn(R, run, s) && Inv(R, s) && |s.procs| == R.n
    ensures EndsIn(R, run', t) && run <= run' && AllDone(R, t)
    decreases Loads(R, s, R.n)
  {
    if p: nat :| p < R.n && !s.procs[p].stage.Done? {
      var next := GoOn(R, run, s, p);
      run', t := RoundEnds(R, run + [next], next);
    } else {
      run', t := run, s;
    }
  }

  /** Any run of a matched round can be continued until every process has left the barrier. */
  lemma EveryRunEnds<B(!new)>(R: Round<B>, run: seq<System<B>>) returns (run': seq<System<B>>, t: System<B>)
    requires Matched(R) && IsRun(R, run)
    ensures EndsIn(R, run', t) && run <= run' && AllDone(R, t)
  {
    RunFits(R, run, |run| - 1);
    run', t := RoundEnds(R, run, run[|run| - 1]);
  }
}
