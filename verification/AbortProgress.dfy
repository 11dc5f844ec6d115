/** Why every process finds out that it is to stop: any run can be brought to its end. */
module AbortProgress {
  import opened Abort

  /** The steps process p may still take. */
  ghost function Left(P: Program, m: nat, pr: Process): nat {
    var most := 2 * VoteAt(P, m) + 4;
    if Rank(pr) < most then most - Rank(pr) else 0
  }

  ghost function AllLeft(P: Program, m: nat, s: System, k: nat): nat
    requires k <= |s|
  {
    if k == 0 then 0 else AllLeft(P, m, s, k - 1) + Left(P, m, s[k - 1])
  }

  lemma {:induction false} LeftChanges(P: Program, m: nat, s: System, t: System, p: nat, k: nat)
    requires k <= |s| == |t| && p < |s| && Left(P, m, t[p]) < Left(P, m, s[p])
    requires forall q: nat :: q < |s| && q != p ==> t[q] == s[q]
    ensures if p < k then AllLeft(P, m, t, k) < AllLeft(P, m, s, k) else AllLeft(P, m, t, k) == AllLeft(P, m, s, k)
  {
    if k > 0 {
      LeftChanges(P, m, s, t, p, k - 1);
    }
  }

  ghost predicate EndsIn(P: Program, run: seq<System>, s: System) {
    IsRun(P, run) && run[|run| - 1] == s
  }

  ghost predicate AllFinished(P: Program, s: System) {
    |s| == P.n && forall p: nat :: p < P.n ==> s[p].stage.Finished?
  }

  lemma GoOn(P: Program, m: nat, run: seq<System>, s: System, p: nat) returns (t: System)
    requires IsLeast(P, m) && EndsIn(P, run, s) && Inv(P, m, s) && p < P.n && !s[p].stage.Finished?
    ensures EndsIn(P, run + [t], t) && Inv(P, m, t) && AllLeft(P, m, t, P.n) < AllLeft(P, m, s, P.n)
  {
    var e := NeverStuck(P, m, s, p);
    StepKeeps(P, m, s, e);
    StepsRise(P, m, s, e);
    t := Apply(P, s, e);
    LeftChanges(P, m, s, t, e.p, P.n);
    var longer := run + [t];
    forall i | 0 <= i < |longer| - 1 ensures IsStep(P, longer[i], longer[i + 1]) {
      if i < |run| - 1 {
        assert IsStep(P, run[i], run[i + 1]);
      } else {
        assert IsStep(P, s, t);
      }
    }
  }

  lemma ProgramEnds(P: Program, m: nat, run: seq<System>, s: System) returns (run': seq<System>, t: System)
    requires IsLeast(P, m) && EndsIn(P, run, s) && Inv(P, m, s)
    ensures EndsIn(P, run', t) && run <= run' && AllFinished(P, t)
    decreases AllLeft(P, m, s, P.n)
  {
    if p: nat :| p < P.n && !s[p].stage.Finished? {
      var next := GoOn(P, m, run, s, p);
      run', t := ProgramEnds(P, m, run + [next], next);
    } else {
      run', t := run, s;
    }
  }

  /** Any run can be continued until every process has finished, with one and the same verdict. */
  lemma EveryRunEnds(P: Program, run: seq<System>) returns (run': seq<System>, t: System)
    requires IsRun(P, run)
    ensures EndsIn(P, run', t) && run <= run' && AllFinished(P, t)
    ensures forall p: nat :: p < P.n ==> (t[p].stage.status.Success? <==> AllEqual(P))
  {
    if P.n == 0 {
      run', t := run, run[|run| - 1];
      NobodyThere(P, run);
    } else {
      var m := Least(P, P.n);
      RunFits(P, m, run, |run| - 1);
      run', t := ProgramEnds(P, m, run, run[|run| - 1]);
      forall p: nat | p < P.n ensures t[p].stage.status.Success? <==> AllEqual(P) {
        ProcessesAgree(P, m, run', |run'| - 1, p);
      }
    }
  }

  lemma NobodySteps(P: Program, s: System, t: System)
    requires P.n == 0
    ensures !IsStep(P, s, t)
  {
  }

  lemma NobodyThere(P: Program, run: seq<System>)
    requires IsRun(P, run) && P.n == 0
    ensures run == [[]]
  {
    var last: nat := |run| - 1;
    NobodySteps(P, run[0], run[if last == 0 then 0 else 1]);
  }
}
