/**
 * Agreement on stopping.  Every default sync first sums up votes; a process whose function has
 * returned votes for the end, so that processes which sync a different number of times all find
 * out in the same round.
 */
module Abort {

  datatype Status = Success | Fatal

  // ---------------------------------------------------------------- one process

  /** What a sync of the queue returns: `voted` is the sum of the votes, taken only by default syncs. */
  function QueueSync(abort: bool, default: bool, voted: nat): nat {
    if default && voted != 0 then voted else if abort then 1 else 0
  }

  class MessageQueue {
    var vote: (nat, nat)
    var resized: bool

    constructor ()
      ensures !resized
    {
      vote, resized := (0, 0), false;
    }

    /**
     * `voted` are the sums over all processes of both votes, and `cast` the votes this process takes
     * part with, which only a default sync does; `rewire` tells to set up the connections anew.
     */
    method Sync(abort: bool, default: bool, voted: (nat, nat))
      returns (result: nat, rewire: bool, cast: seq<(nat, nat)>)
      modifies this
      ensures result == QueueSync(abort, default, voted.0)
      ensures default && voted.0 != 0 ==> result == voted.0
      ensures !default || voted.0 == 0 ==> result == if abort then 1 else 0
      ensures rewire <==> default && voted.0 == 0 && voted.1 > 0
      ensures cast == if default then [(if abort then 1 else 0, if old(resized) then 1 else 0)] else []
      ensures resized == (result != 0 && old(resized))
    {
      vote := (if abort then 1 else 0, if resized then 1 else 0);
      rewire, cast := false, [];
      if default {
        cast := [vote];
        if voted.0 != 0 {
          vote := (voted.0, vote.1);
        } else {
          rewire := voted.1 > 0;
        }
      }
      if vote.0 != 0 {
        return vote.0, rewire, cast;
      }
      resized := false;
      result := 0;
    }
  }

  class Interface {
    const queue: MessageQueue
    var aborted: nat

    constructor ()
      ensures aborted == 0 && fresh(queue) && !queue.resized
    {
      queue := new MessageQueue();
      aborted := 0;
    }

    method Abort(voted: (nat, nat)) returns (cast: seq<(nat, nat)>)
      requires aborted == 0
      modifies this`aborted, queue
      ensures aborted == if voted.0 != 0 then voted.0 else 1
      ensures cast == [(1, if old(queue.resized) then 1 else 0)]
    {
      var rewire;
      aborted, rewire, cast := queue.Sync(true, true, voted);
    }

    /**
     * A default sync succeeds exactly if nobody stops, any other one in any case; once aborted, a sync
     * fails and communicates no more.
     */
    method Sync(default: bool, voted: (nat, nat)) returns (status: Status, cast: seq<(nat, nat)>)
      modifies this`aborted, queue
      ensures !default || old(aborted) != 0 ==> aborted == old(aborted) && cast == []
      ensures default && old(aborted) == 0 ==>
                aborted == voted.0 && cast == [(0, if old(queue.resized) then 1 else 0)]
      ensures status.Success? <==> aborted == 0
      ensures queue.resized == (aborted != 0 && old(queue.resized))
    {
      var rewire;
      cast := [];
      if aborted == 0 {
        aborted, rewire, cast := queue.Sync(false, default, voted);
      }
      status := if aborted == 0 then Success else Fatal;
    }
  }

  /** The round in which a process that makes `syncs` default syncs sees the first nonzero sum, or votes itself. */
  function LastRound(sums: nat -> nat, syncs: nat): (r: nat)
    ensures r <= syncs && (r < syncs ==> sums(r) != 0) && forall j :: 0 <= j < r ==> sums(j) == 0
  {
    if syncs == 0 then 0
    else
      var r := LastRound(sums, syncs - 1);
      if r < syncs - 1 || sums(r) != 0 then r else syncs
  }

  /**
   * Runs a user function that makes `syncs` default syncs, whatever they return; `sums(j)` is
   * the sum of round j.  A process takes part in the rounds up to LastRound and in no other; `cast`
   * are its votes, of which only that after its last sync is one to stop.
   */
  method Hook(nprocs: nat, syncs: nat, sums: nat -> nat) returns (status: Status, cast: seq<(nat, nat)>)
    ensures |cast| == LastRound(sums, syncs) + 1
    ensures forall j :: 0 <= j < |cast| ==> cast[j] == (if j == syncs then 1 else 0, 0)
    ensures status.Success? <==>
              LastRound(sums, syncs) == syncs && nprocs == if sums(syncs) != 0 then sums(syncs) else 1
  {
    var runtime := new Interface();
    cast := [];
    for made := 0 to syncs
      invariant fresh(runtime) && fresh(runtime.queue) && !runtime.queue.resized
      invariant if runtime.aborted == 0 then |cast| == made && LastRound(sums, made) == made
                else LastRound(sums, made) < made && |cast| == LastRound(sums, made) + 1
      invariant forall j :: 0 <= j < |cast| ==> cast[j] == (0, 0)
    {
      var _, votes := runtime.Sync(true, (sums(|cast|), 0));
      cast := cast + votes;
    }
    status := Success;
    if runtime.aborted == 0 {
      var votes := runtime.Abort((sums(|cast|), 0));
      cast := cast + votes;
      if runtime.aborted != nprocs {
        status := Fatal;
      }
    } else {
      status := Fatal;
    }
  }

  // ---------------------------------------------------------------- all processes

  /**
   * Collective calls on the runtime's communicator.  `Register` and `Rewire` stand for all the calls
   * that register the waiting slots and that set up the connections anew, `Exchange` for those that
   * exchange the counts.
   */
  datatype Call = Register | Vote(stop: nat, resized: nat) | Rewire | Exchange | Barrier

  datatype Stage =
    Running | Registering(stop: bool) | Voting(stop: bool) | Rewiring | Exchanging | Closing | Finished(status: Status)

  /** `made` syncs succeeded so far; `refused` were made after the process learnt of the end. */
  datatype Process = Process(stage: Stage, made: nat, aborted: nat, refused: nat, calls: seq<Call>)

  /**
   * `syncs(p)` is how many default syncs the function of process p makes if none of them fails.
   * When round j opens, `waiting(j)` says whether global slots wait to be registered, which is a
   * collective matter, and `resized(p, j)` whether process p has resized its queue.
   */
  datatype Program = Program(n: nat, syncs: nat -> nat, waiting: nat -> bool, resized: (nat, nat) -> bool)

  datatype Event = Sync(p: nat) | End(p: nat) | Return(p: nat)

  type System = seq<Process>

  ghost function Init(P: Program): System {
    seq(P.n, p => Process(Running, 0, 0, 0, []))
  }

  /** Everyone has entered collective call number i. */
  ghost predicate Entered(s: System, i: int) {
    forall q: nat :: q < |s| ==> i < |s[q].calls|
  }

  function VotesOf(c: Call): (nat, nat) {
    if c.Vote? then (c.stop, c.resized) else (0, 0)
  }

  /** The sums of the first `m` processes' votes in collective call i. */
  function Sums(s: System, i: nat, m: nat): (nat, nat)
    requires m <= |s| && forall q: nat :: q < m ==> i < |s[q].calls|
  {
    if m == 0 then (0, 0)
    else
      var (a, b), (v, w) := Sums(s, i, m - 1), VotesOf(s[m - 1].calls[i]);
      (a + v, b + w)
  }

  ghost predicate LastEntered(s: System, p: nat)
    requires p < |s|
  {
    s[p].calls != [] && Entered(s, |s[p].calls| - 1)
  }

  /** After an abort a function may go on syncing or return at once. */
  ghost predicate Enabled(P: Program, s: System, e: Event) {
    && |s| == P.n && e.p < P.n
    && var pr := s[e.p];
       match e
       case Sync(p) => pr.stage.Running? && (pr.aborted == 0 ==> pr.made < P.syncs(p))
       case End(p) => pr.stage.Running? && (pr.aborted == 0 ==> pr.made == P.syncs(p))
       case Return(p) => !pr.stage.Running? && !pr.stage.Finished? && LastEntered(s, p)
  }

  function Ballot(P: Program, p: nat, round: nat, stop: bool): Call {
    Vote(if stop then 1 else 0, if P.resized(p, round) then 1 else 0)
  }

  function CastVote(P: Program, p: nat, pr: Process, stop: bool): Process {
    pr.(stage := Voting(stop), calls := pr.calls + [Ballot(P, p, pr.made, stop)])
  }

  function Open(P: Program, p: nat, pr: Process, stop: bool): Process {
    if P.waiting(pr.made) then pr.(stage := Registering(stop), calls := pr.calls + [Register])
    else CastVote(P, p, pr, stop)
  }

  /** The votes have been summed up. */
  function Decide(P: Program, pr: Process, stop: bool, sums: (nat, nat)): Process {
    var result := QueueSync(stop, true, sums.0);
    if stop then pr.(aborted := result, stage := Finished(if result != P.n then Fatal else Success))
    else if result != 0 then pr.(stage := Running, aborted := result)
    else if sums.1 > 0 then pr.(stage := Rewiring, calls := pr.calls + [Rewire])
    else pr.(stage := Exchanging, calls := pr.calls + [Exchange])
  }

  ghost function Returned(P: Program, s: System, p: nat): Process
    requires Enabled(P, s, Return(p))
  {
    var pr := s[p];
    match pr.stage
    case Registering(stop) => CastVote(P, p, pr, stop)
    case Voting(stop) => Decide(P, pr, stop, Sums(s, |pr.calls| - 1, P.n))
    case Rewiring => pr.(stage := Exchanging, calls := pr.calls + [Exchange])
    case Exchanging => pr.(stage := Closing, calls := pr.calls + [Barrier])
    case Closing => pr.(stage := Running, made := pr.made + 1)
  }

  ghost function Apply(P: Program, s: System, e: Event): System
    requires Enabled(P, s, e)
  {
    var p, pr := e.p, s[e.p];
    match e
    case Sync(_) => s[p := if pr.aborted != 0 then pr.(refused := pr.refused + 1) else Open(P, p, pr, false)]
    case End(_) => s[p := if pr.aborted != 0 then pr.(stage := Finished(Fatal)) else Open(P, p, pr, true)]
    case Return(_) => s[p := Returned(P, s, p)]
  }

  ghost predicate IsStep(P: Program, s: System, t: System) {
    exists e :: Enabled(P, s, e) && t == Apply(P, s, e)
  }

  ghost predicate IsRun(P: Program, run: seq<System>) {
    && run != [] && run[0] == Init(P)
    && forall i :: 0 <= i < |run| - 1 ==> IsStep(P, run[i], run[i + 1])
  }

  // ---------------------------------------------------------------- the outcome, from the program alone

  /** `m` is the least number of syncs of any process. */
  ghost predicate IsLeast(P: Program, m: nat) {
    (exists p: nat :: p < P.n && P.syncs(p) == m) && forall p: nat :: p < P.n ==> m <= P.syncs(p)
  }

  /** How many of the first `k` processes make just `m` syncs. */
  ghost function Stopping(P: Program, m: nat, k: nat): nat {
    if k == 0 then 0 else Stopping(P, m, k - 1) + if P.syncs(k - 1) == m then 1 else 0
  }

  /** How many of the first `k` processes have resized their queue when round j opens. */
  ghost function Resizing(P: Program, j: nat, k: nat): nat {
    if k == 0 then 0 else Resizing(P, j, k - 1) + if P.resized(k - 1, j) then 1 else 0
  }

  ghost predicate AllEqual(P: Program) {
    forall p: nat, q: nat :: p < P.n && q < P.n ==> P.syncs(p) == P.syncs(q)
  }

  lemma {:induction false} StoppingCounts(P: Program, m: nat, k: nat)
    ensures Stopping(P, m, k) <= k
    ensures Stopping(P, m, k) == k <==> forall p: nat :: p < k ==> P.syncs(p) == m
    ensures Stopping(P, m, k) == 0 <==> forall p: nat :: p < k ==> P.syncs(p) != m
  {
    if k > 0 {
      StoppingCounts(P, m, k - 1);
    }
  }

  /** The calls of round j up to the vote. */
  ghost function Opening(P: Program, p: nat, j: nat): (c: seq<Call>)
    ensures |c| == if P.waiting(j) then 2 else 1
  {
    (if P.waiting(j) then [Register] else []) + [Ballot(P, p, j, j == P.syncs(p))]
  }

  /** What follows in a round in which nobody stops; only a resized queue anywhere brings a rewiring. */
  ghost function Ending(P: Program, j: nat): seq<Call> {
    (if Resizing(P, j, P.n) > 0 then [Rewire] else []) + [Exchange, Barrier]
  }

  /** The calls process p makes before round j. */
  ghost function Script(P: Program, p: nat, j: nat): seq<Call> {
    if j == 0 then [] else Script(P, p, j - 1) + Opening(P, p, j - 1) + Ending(P, j - 1)
  }

  ghost predicate SameKind(c: Call, d: Call) {
    && (c.Register? <==> d.Register?) && (c.Vote? <==> d.Vote?) && (c.Rewire? <==> d.Rewire?)
    && (c.Exchange? <==> d.Exchange?)
  }

  lemma {:induction false} ScriptsAlike(P: Program, p: nat, q: nat, j: nat)
    ensures |Script(P, p, j)| == |Script(P, q, j)|
    ensures forall i :: 0 <= i < |Script(P, p, j)| ==> SameKind(Script(P, p, j)[i], Script(P, q, j)[i])
  {
    if j > 0 {
      ScriptsAlike(P, p, q, j - 1);
    }
  }

  lemma {:induction false} ScriptGrows(P: Program, p: nat, j: nat, k: nat)
    requires j <= k
    ensures Script(P, p, j) <= Script(P, p, k)
    decreases k
  {
    if j < k {
      ScriptGrows(P, p, j, k - 1);
    }
  }

  function Verdict(P: Program, m: nat, p: nat, stopping: nat): Status {
    if P.syncs(p) == m && stopping == P.n then Success else Fatal
  }

  /** What a process has called in its current round. */
  ghost function CallsNow(P: Program, p: nat, pr: Process): seq<Call> {
    var j := pr.made;
    var vote, rewire := Opening(P, p, j), if Resizing(P, j, P.n) > 0 then [Rewire] else [];
    match pr.stage
    case Running => if pr.aborted == 0 then [] else vote
    case Registering(_) => [Register]
    case Voting(_) => vote
    case Rewiring => vote + rewire
    case Exchanging => vote + (rewire + [Exchange])
    case Closing => vote + (rewire + [Exchange, Barrier])
    case Finished(_) => vote
  }

  ghost predicate ProcessFits(P: Program, m: nat, p: nat, pr: Process) {
    var S, j := Stopping(P, m, P.n), pr.made;
    && j <= m && pr.calls == Script(P, p, j) + CallsNow(P, p, pr)
    && match pr.stage
       case Running => if pr.aborted == 0 then j <= P.syncs(p) else j == m < P.syncs(p) && pr.aborted == S
       case Registering(stop) => pr.aborted == 0 && P.waiting(j) && stop == (j == P.syncs(p)) && j <= P.syncs(p)
       case Voting(stop) => pr.aborted == 0 && stop == (j == P.syncs(p)) && j <= P.syncs(p)
       case Rewiring => pr.aborted == 0 && j < m && Resizing(P, j, P.n) > 0
       case Exchanging => pr.aborted == 0 && j < m
       case Closing => pr.aborted == 0 && j < m
       case Finished(status) => j == m && pr.aborted == S && status == Verdict(P, m, p, S)
  }

  ghost predicate Inv(P: Program, m: nat, s: System) {
    |s| == P.n && forall p: nat :: p < P.n ==> ProcessFits(P, m, p, s[p])
  }

  // ---------------------------------------------------------------- what a call of a certain number is

  lemma CallsInRound(P: Program, p: nat, pr: Process)
    requires pr.stage.Registering? ==> P.waiting(pr.made)
    requires pr.stage.Rewiring? ==> Resizing(P, pr.made, P.n) > 0
    ensures CallsNow(P, p, pr) <= Opening(P, p, pr.made) + Ending(P, pr.made)
  {
  }

  lemma PrefixTrans(a: seq<Call>, b: seq<Call>, c: seq<Call>)
    requires a <= b <= c
    ensures a <= c
  {
  }

  lemma CallsInScript(P: Program, m: nat, p: nat, pr: Process, k: nat)
    requires ProcessFits(P, m, p, pr) && k > pr.made
    ensures pr.calls <= Script(P, p, k)
  {
    var script, vote, rest := Script(P, p, pr.made), Opening(P, p, pr.made), Ending(P, pr.made);
    CallsInRound(P, p, pr);
    assert script + (vote + rest) == script + vote + rest;
    assert pr.calls <= Script(P, p, pr.made + 1);
    ScriptGrows(P, p, pr.made + 1, k);
    PrefixTrans(pr.calls, Script(P, p, pr.made + 1), Script(P, p, k));
  }

  /** The number of the vote of round j. */
  ghost function VoteAt(P: Program, j: nat): nat {
    |Script(P, 0, j)| + |Opening(P, 0, j)| - 1
  }

  /** Process p has voted in round j. */
  ghost predicate Voted(P: Program, p: nat, pr: Process, j: nat) {
    && j <= pr.made && VoteAt(P, j) < |pr.calls|
    && pr.calls[VoteAt(P, j)] == Ballot(P, p, j, j == P.syncs(p))
  }

  lemma VoteInScript(P: Program, p: nat, j: nat)
    ensures VoteAt(P, j) < |Script(P, p, j + 1)|
    ensures Script(P, p, j + 1)[VoteAt(P, j)] == Ballot(P, p, j, j == P.syncs(p))
  {
    ScriptsAlike(P, 0, p, j);
    var vote := Opening(P, p, j);
    assert Script(P, p, j + 1)[VoteAt(P, j)] == vote[|vote| - 1];
  }

  lemma VoteIs(P: Program, m: nat, p: nat, pr: Process, j: nat)
    requires ProcessFits(P, m, p, pr) && VoteAt(P, j) < |pr.calls|
    ensures Voted(P, p, pr, j)
  {
    if pr.made < j {
      ScriptsAlike(P, 0, p, j);
      CallsInScript(P, m, p, pr, j);
    } else {
      CallsInScript(P, m, p, pr, pr.made + 1);
      VoteInScript(P, p, j);
      ScriptGrows(P, p, j + 1, pr.made + 1);
    }
  }

  lemma {:induction false} SumOfVotes(P: Program, m: nat, s: System, j: nat, k: nat)
    requires IsLeast(P, m) && k <= |s| == P.n && j <= m
    requires forall q: nat :: q < k ==> VoteAt(P, j) < |s[q].calls| && Voted(P, q, s[q], j)
    ensures Sums(s, VoteAt(P, j), k) == (if j == m then Stopping(P, m, k) else 0, Resizing(P, j, k))
  {
    if k > 0 {
      SumOfVotes(P, m, s, j, k - 1);
      assert Voted(P, k - 1, s[k - 1], j);
    }
  }

  /** Once everybody has voted in a round, the sums follow from the program. */
  lemma SumIs(P: Program, m: nat, s: System, j: nat)
    requires Inv(P, m, s) && IsLeast(P, m) && Entered(s, VoteAt(P, j))
    ensures j <= m
    ensures Sums(s, VoteAt(P, j), P.n) == (if j == m then Stopping(P, m, P.n) else 0, Resizing(P, j, P.n))
  {
    forall q: nat | q < P.n ensures Voted(P, q, s[q], j) && s[q].made <= m {
      assert ProcessFits(P, m, q, s[q]);
      VoteIs(P, m, q, s[q], j);
    }
    var p: nat :| p < P.n && P.syncs(p) == m;
    assert Voted(P, p, s[p], j);
    SumOfVotes(P, m, s, j, P.n);
  }

  // ---------------------------------------------------------------- every step keeps the course

  /** All took part in the vote a process returns from, and what they said follows from the program. */
  lemma VoteReturns(P: Program, m: nat, s: System, p: nat)
    requires Inv(P, m, s) && IsLeast(P, m) && Enabled(P, s, Return(p)) && s[p].stage.Voting?
    ensures var j := s[p].made;
            Sums(s, |s[p].calls| - 1, P.n) == (if j == m then Stopping(P, m, P.n) else 0, Resizing(P, j, P.n))
  {
    assert |s[p].calls| - 1 == VoteAt(P, s[p].made) by {
      assert ProcessFits(P, m, p, s[p]);
      ScriptsAlike(P, 0, p, s[p].made);
    }
    SumIs(P, m, s, s[p].made);
  }

  lemma DecideFits(P: Program, m: nat, p: nat, pr: Process)
    requires IsLeast(P, m) && p < P.n && ProcessFits(P, m, p, pr) && pr.stage.Voting?
    ensures var sums := (if pr.made == m then Stopping(P, m, P.n) else 0, Resizing(P, pr.made, P.n));
            ProcessFits(P, m, p, Decide(P, pr, pr.stage.stop, sums))
  {
    var S, script, vote := Stopping(P, m, P.n), Script(P, p, pr.made), Opening(P, p, pr.made);
    StoppingCounts(P, m, P.n);
    assert script + vote + [Exchange] == script + (vote + ([] + [Exchange]));
    assert script + vote + [Rewire] == script + (vote + [Rewire]);
  }

  lemma VoteFits(P: Program, m: nat, s: System, p: nat)
    requires Inv(P, m, s) && IsLeast(P, m) && Enabled(P, s, Return(p)) && s[p].stage.Voting?
    ensures ProcessFits(P, m, p, Returned(P, s, p))
  {
    VoteReturns(P, m, s, p);
    assert ProcessFits(P, m, p, s[p]);
    DecideFits(P, m, p, s[p]);
  }

  lemma ReturnFits(P: Program, m: nat, s: System, p: nat)
    requires Inv(P, m, s) && IsLeast(P, m) && Enabled(P, s, Return(p))
    ensures ProcessFits(P, m, p, Returned(P, s, p))
  {
    var pr, t := s[p], Returned(P, s, p);
    assert ProcessFits(P, m, p, pr);
    if pr.stage.Voting? {
      VoteFits(P, m, s, p);
    } else if pr.stage.Closing? {
      assert t.calls == Script(P, p, t.made) + [];
    } else {
      GoOnFits(P, m, p, pr, t);
    }
  }

  /** The next call of the round. */
  lemma GoOnFits(P: Program, m: nat, p: nat, pr: Process, t: Process)
    requires ProcessFits(P, m, p, pr)
    requires match pr.stage
             case Registering(stop) => t == CastVote(P, p, pr, stop)
             case Rewiring => t == pr.(stage := Exchanging, calls := pr.calls + [Exchange])
             case Exchanging => t == pr.(stage := Closing, calls := pr.calls + [Barrier])
             case _ => false
    ensures ProcessFits(P, m, p, t)
  {
    var now, next := CallsNow(P, p, pr), CallsNow(P, p, t);
    assert next == now + [next[|next| - 1]];
  }

  lemma StepFits(P: Program, m: nat, s: System, e: Event)
    requires Inv(P, m, s) && IsLeast(P, m) && Enabled(P, s, e)
    ensures ProcessFits(P, m, e.p, Apply(P, s, e)[e.p])
  {
    if e.Return? {
      ReturnFits(P, m, s, e.p);
    } else {
      var pr, t := s[e.p], Apply(P, s, e)[e.p];
      assert ProcessFits(P, m, e.p, pr);
      assert t.calls == Script(P, e.p, t.made) + CallsNow(P, e.p, t);
    }
  }

  lemma StepKeeps(P: Program, m: nat, s: System, e: Event)
    requires Inv(P, m, s) && IsLeast(P, m) && Enabled(P, s, e)
    ensures Inv(P, m, Apply(P, s, e))
  {
    var t := Apply(P, s, e);
    forall p: nat | p < P.n ensures ProcessFits(P, m, p, t[p]) {
      if p == e.p {
        StepFits(P, m, s, e);
      } else {
        assert ProcessFits(P, m, p, s[p]);
      }
    }
  }

  lemma {:induction false} RunFits(P: Program, m: nat, run: seq<System>, i: nat)
    requires IsRun(P, run) && IsLeast(P, m) && i < |run|
    ensures Inv(P, m, run[i])
  {
    if i > 0 {
      RunFits(P, m, run, i - 1);
      assert IsStep(P, run[i - 1], run[i - 1 + 1]);
      var e :| Enabled(P, run[i - 1], e) && run[i] == Apply(P, run[i - 1], e);
      StepKeeps(P, m, run[i - 1], e);
    }
  }

  // ---------------------------------------------------------------- what all processes agree on

  function Rounds(calls: seq<Call>): nat {
    if calls == [] then 0 else Rounds(calls[..|calls| - 1]) + if calls[|calls| - 1].Vote? then 1 else 0
  }

  lemma {:induction false} RoundsAdd(a: seq<Call>, b: seq<Call>)
    ensures Rounds(a + b) == Rounds(a) + Rounds(b)
  {
    if b == [] {
      assert a + b == a;
    } else {
      RoundsAdd(a, b[..|b| - 1]);
      assert (a + b)[..|a + b| - 1] == a + b[..|b| - 1];
    }
  }

  lemma NoVotes(calls: seq<Call>)
    requires forall c :: c in calls ==> !c.Vote?
    ensures Rounds(calls) == 0
  {
    if calls != [] {
      NoVotes(calls[..|calls| - 1]);
    }
  }

  lemma RoundsIn(P: Program, p: nat, j: nat)
    ensures Rounds(Opening(P, p, j)) == 1 && Rounds(Ending(P, j)) == 0
  {
    NoVotes(Ending(P, j));
    var vote := Opening(P, p, j);
    NoVotes(vote[..|vote| - 1]);
  }

  lemma RoundsAddThree(a: seq<Call>, b: seq<Call>, c: seq<Call>)
    ensures Rounds(a + b + c) == Rounds(a) + Rounds(b) + Rounds(c)
  {
    RoundsAdd(a, b);
    RoundsAdd(a + b, c);
  }

  lemma {:induction false} RoundsOf(P: Program, p: nat, j: nat)
    ensures Rounds(Script(P, p, j)) == j
  {
    if j > 0 {
      RoundsOf(P, p, j - 1);
      RoundsIn(P, p, j - 1);
      RoundsAddThree(Script(P, p, j - 1), Opening(P, p, j - 1), Ending(P, j - 1));
    }
  }

  lemma RoundsThrough(P: Program, p: nat, j: nat)
    ensures Rounds(Script(P, p, j) + Opening(P, p, j)) == j + 1
  {
    RoundsOf(P, p, j);
    RoundsIn(P, p, j);
    RoundsAdd(Script(P, p, j), Opening(P, p, j));
  }

  lemma VerdictSays(P: Program, m: nat, p: nat)
    requires IsLeast(P, m) && p < P.n
    ensures Stopping(P, m, P.n) > 0
    ensures Verdict(P, m, p, Stopping(P, m, P.n)).Success? <==> AllEqual(P)
  {
    StoppingCounts(P, m, P.n);
    var q: nat :| q < P.n && P.syncs(q) == m;
    if AllEqual(P) {
      assert forall a: nat :: a < P.n ==> P.syncs(a) == P.syncs(q);
    }
  }

  /**
   * Agreement: whoever knows of the end took part in exactly min + 1 vote rounds and knows how many
   * processes make the least number of syncs; whoever finished reports success if and only if all
   * processes make equally many.
   */
  lemma ProcessesAgree(P: Program, m: nat, run: seq<System>, i: nat, p: nat)
    requires IsRun(P, run) && IsLeast(P, m) && i < |run| && p < P.n
    ensures |run[i]| == P.n
    ensures run[i][p].aborted != 0 ==> run[i][p].aborted == Stopping(P, m, P.n) && Rounds(run[i][p].calls) == m + 1
    ensures run[i][p].stage.Finished? ==> run[i][p].aborted != 0
                                          && (run[i][p].stage.status.Success? <==> AllEqual(P))
  {
    RunFits(P, m, run, i);
    var pr := run[i][p];
    assert ProcessFits(P, m, p, pr);
    RoundsThrough(P, p, m);
    VerdictSays(P, m, p);
  }

  /** What the running code of process p returns when its vote rounds sum up as they do in every run. */
  lemma HookAgrees(P: Program, m: nat, p: nat, sums: nat -> nat)
    requires IsLeast(P, m) && p < P.n
    requires (forall j :: 0 <= j < m ==> sums(j) == 0) && sums(m) == Stopping(P, m, P.n)
    ensures LastRound(sums, P.syncs(p)) == m
    ensures LastRound(sums, P.syncs(p)) == P.syncs(p) && P.n == (if sums(P.syncs(p)) != 0 then sums(P.syncs(p)) else 1)
            <==> AllEqual(P)
  {
    VerdictSays(P, m, p);
  }

  /**
   * The votes of a round in which everyone has taken part: nobody stops before the last round, and
   * all learn alike whether somebody has resized a queue.
   */
  lemma RoundSums(P: Program, m: nat, run: seq<System>, i: nat, j: nat)
    requires IsRun(P, run) && IsLeast(P, m) && i < |run| && Entered(run[i], VoteAt(P, j))
    ensures |run[i]| == P.n && j <= m
    ensures Sums(run[i], VoteAt(P, j), P.n) == (if j == m then Stopping(P, m, P.n) else 0, Resizing(P, j, P.n))
  {
    RunFits(P, m, run, i);
    SumIs(P, m, run[i], j);
  }

  lemma CallIs(P: Program, m: nat, p: nat, pr: Process, k: nat)
    requires ProcessFits(P, m, p, pr) && k < |pr.calls|
    ensures k < |Script(P, p, m + 1)| && pr.calls[k] == Script(P, p, m + 1)[k]
  {
    CallsInScript(P, m, p, pr, m + 1);
  }

  /** Processes never disagree about which collective a call is. */
  lemma CollectivesMatch(P: Program, m: nat, run: seq<System>, i: nat, p: nat, q: nat, k: nat)
    requires IsRun(P, run) && IsLeast(P, m) && i < |run| && p < P.n && q < P.n
    requires |run[i]| == P.n && k < |run[i][p].calls| && k < |run[i][q].calls|
    ensures SameKind(run[i][p].calls[k], run[i][q].calls[k])
  {
    RunFits(P, m, run, i);
    assert ProcessFits(P, m, p, run[i][p]) && ProcessFits(P, m, q, run[i][q]);
    CallIs(P, m, p, run[i][p], k);
    CallIs(P, m, q, run[i][q], k);
    ScriptsAlike(P, p, q, m + 1);
  }

  /** Once a process knows of the end, it starts no collective call any more. */
  lemma {:induction false} NoMoreCalls(P: Program, run: seq<System>, i: nat, j: nat, p: nat)
    requires IsRun(P, run) && i <= j < |run| && |run[i]| == P.n && p < P.n && run[i][p].aborted != 0
    ensures |run[j]| == P.n && run[j][p].aborted == run[i][p].aborted && run[j][p].calls == run[i][p].calls
    decreases j
  {
    if i < j {
      NoMoreCalls(P, run, i, j - 1, p);
      assert IsStep(P, run[j - 1], run[j - 1 + 1]);
      AbortedStays(P, run, j - 1, p);
    }
  }

  lemma AbortedStays(P: Program, run: seq<System>, i: nat, p: nat)
    requires IsRun(P, run) && i + 1 < |run| && |run[i]| == P.n && p < P.n && run[i][p].aborted != 0
    ensures |run[i + 1]| == P.n && run[i + 1][p].aborted == run[i][p].aborted && run[i + 1][p].calls == run[i][p].calls
  {
    var m := Least(P, P.n);
    RunFits(P, m, run, i);
    assert ProcessFits(P, m, p, run[i][p]);
    assert IsStep(P, run[i], run[i + 1]);
  }

  lemma {:induction false} Least(P: Program, k: nat) returns (m: nat)
    requires 0 < k <= P.n
    ensures (exists p: nat :: p < k && P.syncs(p) == m) && forall p: nat :: p < k ==> m <= P.syncs(p)
  {
    m := P.syncs(k - 1);
    if k > 1 {
      var rest := Least(P, k - 1);
      m := if rest < m then rest else m;
    }
  }

  // ---------------------------------------------------------------- no process waits for ever

  /** How far a process is; every step but a refused sync takes its process further. */
  function Rank(pr: Process): nat {
    2 * |pr.calls| + match pr.stage
                     case Running => 1
                     case Finished(_) => 2
                     case _ => 0
  }

  /** No process makes more calls than those up to the vote of the last round. */
  lemma CallsBounded(P: Program, m: nat, p: nat, pr: Process)
    requires ProcessFits(P, m, p, pr)
    ensures |pr.calls| <= VoteAt(P, m) + 1
    ensures pr.stage.Finished? ==> |pr.calls| == VoteAt(P, m) + 1
  {
    ScriptsAlike(P, 0, p, m);
    if pr.made < m {
      CallsInScript(P, m, p, pr, m);
    }
  }

  lemma StepsRise(P: Program, m: nat, s: System, e: Event)
    requires Inv(P, m, s) && IsLeast(P, m) && Enabled(P, s, e)
    ensures var t := Apply(P, s, e);
            && Rank(t[e.p]) <= 2 * VoteAt(P, m) + 4
            && (Rank(t[e.p]) > Rank(s[e.p]) || (e.Sync? && s[e.p].aborted != 0))
            && forall q: nat :: q < P.n && q != e.p ==> t[q] == s[q]
  {
    StepFits(P, m, s, e);
    assert ProcessFits(P, m, e.p, s[e.p]);
    CallsBounded(P, m, e.p, Apply(P, s, e)[e.p]);
  }

  /** A process with the fewest collective calls so far. */
  lemma {:induction false} Slowest(s: System, k: nat) returns (p: nat)
    requires 0 < k <= |s|
    ensures p < k && forall q: nat :: q < k ==> |s[p].calls| <= |s[q].calls|
  {
    p := k - 1;
    if k > 1 {
      var rest := Slowest(s, k - 1);
      p := if |s[rest].calls| < |s[k - 1].calls| then rest else k - 1;
    }
  }

  /** As long as some process has not finished, some process can take a step that leads it further. */
  lemma NeverStuck(P: Program, m: nat, s: System, p: nat) returns (e: Event)
    requires Inv(P, m, s) && IsLeast(P, m) && p < P.n && !s[p].stage.Finished?
    ensures Enabled(P, s, e) && Rank(Apply(P, s, e)[e.p]) > Rank(s[e.p])
  {
    if r: nat :| r < P.n && s[r].stage.Running? {
      assert ProcessFits(P, m, r, s[r]);
      e := if s[r].aborted == 0 && s[r].made < P.syncs(r) then Sync(r) else End(r);
    } else {
      var q := Slowest(s, P.n);
      assert ProcessFits(P, m, q, s[q]) && ProcessFits(P, m, p, s[p]);
      CallsBounded(P, m, q, s[q]);
      CallsBounded(P, m, p, s[p]);
      e := Return(if s[q].stage.Finished? then p else q);
    }
    StepsRise(P, m, s, e);
  }
}
