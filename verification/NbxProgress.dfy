/** The sparse all-to-all gets to its end: until then some process can take a step that leads further. */
module NbxProgress {
  import opened NbxSends
  import opened Nbx

  // ---------------------------------------------------------------- how much is left to do

  /** Bytes not in any message count double, a message whose end has not been noticed counts once. */
  function ItemWork(it: Item): nat {
    2 * it.count + if it.pending > 0 then 1 else 0
  }

  function ItemsWork(items: seq<Item>, m: nat): nat
    requires m <= |items|
  {
    if m == 0 then 0 else ItemsWork(items, m - 1) + ItemWork(items[m - 1])
  }

  /** The sends from number k on are not started. */
  function JobsWork(jobs: seq<Job>, k: nat): nat
    decreases |jobs| - k
  {
    if k >= |jobs| then 0 else JobsWork(jobs, k + 1) + 2 * jobs[k].count + 2
  }

  function StageWork(stage: Stage): nat {
    match stage
    case Posting => 3
    case Looping => 2
    case InBarrier => 1
    case Left => 0
  }

  function ProcessWork(jobs: seq<Job>, pr: Process): nat {
    StageWork(pr.stage) + ItemsWork(pr.items, |pr.items|)
    + if pr.stage.Posting? then JobsWork(jobs, |pr.items|) else 0
  }

  function ProcessesWork(P: Exchange, procs: seq<Process>, m: nat): nat
    requires m <= |procs|
  {
    if m == 0 then 0 else ProcessesWork(P, procs, m - 1) + ProcessWork(P.jobs(m - 1), procs[m - 1])
  }

  /** A fragment that is not received counts once more. */
  function Work(P: Exchange, s: System): nat {
    ProcessesWork(P, s.procs, |s.procs|) + |s.flight|
  }

  lemma {:induction false} ItemsSame(items: seq<Item>, items': seq<Item>, m: nat)
    requires m <= |items| && m <= |items'| && forall k: nat :: k < m ==> items'[k] == items[k]
    ensures ItemsWork(items', m) == ItemsWork(items, m)
  {
    if m > 0 {
      ItemsSame(items, items', m - 1);
    }
  }

  lemma {:induction false} ItemsUpdate(items: seq<Item>, k: nat, it: Item, m: nat)
    requires k < m <= |items|
    ensures ItemsWork(items[k := it], m) + ItemWork(items[k]) == ItemsWork(items, m) + ItemWork(it)
  {
    if k == m - 1 {
      ItemsSame(items, items[k := it], m - 1);
    } else {
      ItemsUpdate(items, k, it, m - 1);
    }
  }

  lemma {:induction false} ProcessesSame(P: Exchange, procs: seq<Process>, procs': seq<Process>, m: nat)
    requires m <= |procs| == |procs'| && forall q: nat :: q < m ==> procs'[q] == procs[q]
    ensures ProcessesWork(P, procs', m) == ProcessesWork(P, procs, m)
  {
    if m > 0 {
      ProcessesSame(P, procs, procs', m - 1);
    }
  }

  lemma {:induction false} ProcessesUpdate(P: Exchange, procs: seq<Process>, p: nat, pr: Process, m: nat)
    requires p < m <= |procs|
    ensures ProcessesWork(P, procs[p := pr], m) + ProcessWork(P.jobs(p), procs[p])
            == ProcessesWork(P, procs, m) + ProcessWork(P.jobs(p), pr)
  {
    if p == m - 1 {
      ProcessesSame(P, procs, procs[p := pr], m - 1);
    } else {
      ProcessesUpdate(P, procs, p, pr, m - 1);
    }
  }

  // ---------------------------------------------------------------- steps that lead further

  lemma PostLeadsOn(P: Exchange, s: System, p: nat)
    requires WellFormed(P) && Enabled(P, s, Post(p))
    ensures Work(P, Apply(P, s, Post(p))) < Work(P, s)
  {
    var t, pr, k := Apply(P, s, Post(p)), s.procs[p], |s.procs[p].items|;
    ProcessesUpdate(P, s.procs, p, t.procs[p], P.n);
    ItemsSame(pr.items, t.procs[p].items, k);
    assert |t.flight| == |s.flight| + |Messages(p, FirstItem(P, p, k))|;
  }

  lemma CompleteLeadsOn(P: Exchange, s: System, p: nat, k: nat)
    requires WellFormed(P) && Enabled(P, s, Complete(p, k))
    ensures Work(P, Apply(P, s, Complete(p, k))) < Work(P, s)
  {
    var t, items := Apply(P, s, Complete(p, k)), s.procs[p].items;
    ProcessesUpdate(P, s.procs, p, t.procs[p], P.n);
    ItemsUpdate(items, k, Posted(items[k], P.limit), |items|);
  }

  lemma ReceiveLeadsOn(P: Exchange, s: System, p: nat, f: Fragment)
    requires Enabled(P, s, Receive(p, f))
    ensures Work(P, Apply(P, s, Receive(p, f))) < Work(P, s)
  {
    ProcessesUpdate(P, s.procs, p, Apply(P, s, Receive(p, f)).procs[p], P.n);
  }

  lemma StageLeadsOn(P: Exchange, s: System, e: Event)
    requires Enabled(P, s, e) && (e.EnterLoop? || e.Leave?)
    ensures Work(P, Apply(P, s, e)) < Work(P, s)
  {
    ProcessesUpdate(P, s.procs, e.p, Apply(P, s, e).procs[e.p], P.n);
  }

  /** The last sweep, after which the barrier is entered. */
  lemma SweepLeadsOn(P: Exchange, s: System, p: nat)
    requires Enabled(P, s, Sweep(p)) && forall k: nat :: k < |s.procs[p].items| ==> Finished(s.procs[p].items[k])
    ensures Work(P, Apply(P, s, Sweep(p))) < Work(P, s) && Entered(Apply(P, s, Sweep(p)), p)
  {
    var items := s.procs[p].items;
    SweepDropsFinished(items);
    assert multiset(Swept(items)) == multiset{};
    assert |multiset(Swept(items))| == |Swept(items)|;
    ProcessesUpdate(P, s.procs, p, Apply(P, s, Sweep(p)).procs[p], P.n);
  }

  // ---------------------------------------------------------------- progress

  /** A looping process without fragments in flight anywhere can complete a send or has finished all. */
  lemma QuietLoopLeadsOn(P: Exchange, s: System, p: nat) returns (e: Event)
    requires WellFormed(P) && Inv(P, s) && p < P.n && s.procs[p].stage.Looping? && s.flight == multiset{}
    ensures Enabled(P, s, e) && Work(P, Apply(P, s, e)) < Work(P, s) && !e.Leave?
  {
    assert ProcessFits(P, s, p);
    var items := s.procs[p].items;
    if k: nat :| k < |items| && items[k].pending > 0 {
      assert ItemFits(P, s, p, items[k]);
      e := Complete(p, k);
      CompleteLeadsOn(P, s, p, k);
    } else {
      forall k: nat | k < |items| ensures Finished(items[k]) {
        assert ItemFits(P, s, p, items[k]);
      }
      e := Sweep(p);
      SweepLeadsOn(P, s, p);
    }
  }

  /** Nobody leaves while something is in flight to it. */
  lemma ReceiverIsHere(P: Exchange, s: System, f: Fragment)
    requires WellFormed(P) && Inv(P, s) && f in s.flight
    ensures f.dst < P.n && !s.procs[f.dst].stage.Left?
  {
    FlightContinues(P, s, f);
    SenderIsBusy(P, s, f);
  }

  /** Until all have entered the barrier, some process other than by leaving leads the exchange further. */
  lemma EntersBarrier(P: Exchange, s: System, p: nat) returns (e: Event)
    requires WellFormed(P) && Inv(P, s) && p < P.n && !Entered(s, p)
    ensures Enabled(P, s, e) && Work(P, Apply(P, s, e)) < Work(P, s) && !e.Leave?
  {
    if q: nat :| q < P.n && s.procs[q].stage.Posting? {
      assert ProcessFits(P, s, q);
      if |s.procs[q].items| < |P.jobs(q)| {
        e := Post(q);
        PostLeadsOn(P, s, q);
      } else {
        e := EnterLoop(q);
        StageLeadsOn(P, s, e);
      }
    } else if f :| f in s.flight {
      ReceiverIsHere(P, s, f);
      assert !s.procs[f.dst].stage.Posting?;
      e := Receive(f.dst, f);
      ReceiveLeadsOn(P, s, f.dst, f);
    } else {
      assert s.flight == multiset{};
      e := QuietLoopLeadsOn(P, s, p);
    }
  }

  /** As long as a process has not left the all-to-all, some process can take a step that leads further. */
  lemma NeverStuck(P: Exchange, s: System, p: nat) returns (e: Event)
    requires WellFormed(P) && Inv(P, s) && p < P.n && !s.procs[p].stage.Left?
    ensures Enabled(P, s, e) && Work(P, Apply(P, s, e)) < Work(P, s)
  {
    if q: nat :| q < P.n && !Entered(s, q) {
      e := EntersBarrier(P, s, q);
    } else {
      assert Entered(s, p);
      e := Leave(p);
      StageLeadsOn(P, s, e);
    }
  }

  ghost predicate AllLeft(P: Exchange, s: System) {
    |s.procs| == P.n && forall p: nat :: p < P.n ==> s.procs[p].stage.Left?
  }

  ghost predicate EndsIn(P: Exchange, run: seq<System>, s: System) {
    IsRun(P, run) && run[|run| - 1] == s
  }

  lemma RunGoesOn(P: Exchange, run: seq<System>, s: System, p: nat) returns (t: System)
    requires WellFormed(P) && EndsIn(P, run, s) && Inv(P, s) && p < P.n && !s.procs[p].stage.Left?
    ensures EndsIn(P, run + [t], t) && Inv(P, t) && Work(P, t) < Work(P, s)
  {
    var e := NeverStuck(P, s, p);
    StepKeeps(P, s, e);
    t := Apply(P, s, e);
    var longer := run + [t];
    forall i | 0 <= i < |longer| - 1 ensures IsStep(P, longer[i], longer[i + 1]) {
      if i < |run| - 1 {
        assert IsStep(P, run[i], run[i + 1]);
      } else {
        assert IsStep(P, s, t);
      }
    }
  }

  lemma ExchangeEnds(P: Exchange, run: seq<System>, s: System) returns (run': seq<System>, t: System)
    requires WellFormed(P) && EndsIn(P, run, s) && Inv(P, s)
    ensures EndsIn(P, run', t) && run <= run' && AllLeft(P, t)
    decreases Work(P, s)
  {
    if p: nat :| p < P.n && !s.procs[p].stage.Left? {
      var next := RunGoesOn(P, run, s, p);
      run', t := ExchangeEnds(P, run + [next], next);
    } else {
      run', t := run, s;
    }
  }

  /** Any run can be continued until every process has left. */
  lemma EveryRunEnds(P: Exchange, run: seq<System>) returns (run': seq<System>, t: System)
    requires WellFormed(P) && IsRun(P, run)
    ensures EndsIn(P, run', t) && run <= run' && AllLeft(P, t)
  {
    RunFits(P, run, |run| - 1);
    run', t := ExchangeEnds(P, run, run[|run| - 1]);
  }
}
