/**
 * The superstep protocol of `n` processes as a transition system.
 *
 * Every step of a process is a function of module Verbs.  The network may delay and reorder
 * operations as it likes, which is more than the code's reliable connections do; where it matters
 * that a run can really happen, runs are `IsOrdered`.  A collective call returns only once every
 * process has made the call with the same number, because MPI matches collectives by their order
 * on a communicator.
 */
module Superstep {
  import opened Tallies
  import opened Verbs

  /** Collective calls on the communicator of the RDMA layer. */
  datatype Call = Vote | Exchange(counts: seq<nat>) | Barrier

  datatype Stage = Computing | Voting | Exchanging

  /** `unacked` is the hardware's number of posted operations that have not completed locally. */
  datatype Process = Process(verbs: Verbs, stage: Stage, calls: seq<Call>, unacked: nat)

  /** `flight` and `delivered` count operations by source, destination and superstep of issue. */
  datatype System = System(procs: seq<Process>, flight: Tally, delivered: Tally)

  /**
   * An SPMD program: the attribute of the k-th sync of process p is `attr(k, p)`, and
   * `plan(p, q, k)` is how many operations p addresses to q in superstep k.  No step of the
   * system looks at the plan; a run that follows it is a planned run.
   */
  datatype Program = Program(n: nat, attr: (nat, nat) -> Attr, plan: Tally)

  datatype Event =
    | Issue(p: nat, peer: nat)
    | Ack(p: nat)
    | Deliver(src: nat, dst: nat, step: nat)
    | CallVote(p: nat)
    | CallSync(p: nat)
    | ReturnExchange(p: nat)
    | Visit(p: nat, flag: bool)

  /** The process whose record the step changes. */
  ghost function Actor(e: Event): nat {
    match e
    case Deliver(_, d, _) => d
    case _ => e.p
  }

  ghost predicate Formed(P: Program, s: System) {
    && |s.procs| == P.n
    && forall p: nat :: p < P.n ==>
                          Shaped(s.procs[p].verbs, P.n) && s.procs[p].verbs.numMsgs == s.procs[p].unacked
  }

  ghost function Init(P: Program): System {
    System(seq(P.n, i => Process(Start(P.n), Computing, [], 0)), (a, b, c) => 0, (a, b, c) => 0)
  }

  ghost function Counter(s: System, p: nat): nat
    requires p < |s.procs|
  {
    s.procs[p].verbs.counter
  }

  ghost function AttrNow(P: Program, s: System, p: nat): Attr
    requires p < |s.procs|
  {
    P.attr(Counter(s, p), p)
  }

  /** Process p has issued everything its program issues in the current superstep. */
  ghost predicate IssuedAll(P: Program, s: System, p: nat)
    requires Formed(P, s) && p < P.n
  {
    forall d: nat :: d < P.n ==> s.procs[p].verbs.numMsgsSync[d] == P.plan(p, d, Counter(s, p))
  }

  /** The collective call number `i` has been entered by everyone. */
  ghost predicate Entered(s: System, i: int) {
    forall q: nat :: q < |s.procs| ==> i < |s.procs[q].calls|
  }

  ghost predicate LastCallEntered(s: System, p: nat)
    requires p < |s.procs|
  {
    Entered(s, |s.procs[p].calls| - 1)
  }

  ghost function CountFor(c: Call, p: nat): nat {
    if c.Exchange? && p < |c.counts| then c.counts[p] else 0
  }

  /** What the sum over the first `m` processes of collective call `i` returns to process p. */
  ghost function ExchangeSum(s: System, i: nat, p: nat, m: nat): nat
    requires m <= |s.procs| && Entered(s, i)
  {
    if m == 0 then 0 else ExchangeSum(s, i, p, m - 1) + CountFor(s.procs[m - 1].calls[i], p)
  }

  ghost predicate Idle(s: System, p: nat)
    requires p < |s.procs|
  {
    s.procs[p].stage.Computing? && !s.procs[p].verbs.request.isActive
  }

  /** Operations may be issued until the sync takes the counts over, also while a vote is under way. */
  ghost predicate MayIssue(s: System, p: nat)
    requires p < |s.procs|
  {
    !s.procs[p].stage.Exchanging? && !s.procs[p].verbs.request.isActive
  }

  /** What the code itself demands before a step: nothing about the program's plan. */
  ghost predicate Enabled(P: Program, s: System, e: Event)
    requires Formed(P, s)
  {
    match e
    case Issue(p, d) => p < P.n && d < P.n && MayIssue(s, p)
    case Ack(p) => p < P.n && s.procs[p].unacked > 0
    case Deliver(q, d, k) => q < P.n && d < P.n && s.flight(q, d, k) > 0
    case CallVote(p) => p < P.n && Idle(s, p) && AttrNow(P, s, p).mode.Default?
    case CallSync(p) =>
      && p < P.n && s.procs[p].verbs.numMsgs == 0
      && if AttrNow(P, s, p).mode.Default? then s.procs[p].stage.Voting? && LastCallEntered(s, p)
         else Idle(s, p)
    case ReturnExchange(p) =>
      p < P.n && s.procs[p].stage.Exchanging? && s.procs[p].calls != [] && LastCallEntered(s, p)
    case Visit(p, flag) =>
      p < P.n && s.procs[p].verbs.request.isActive && (flag ==> LastCallEntered(s, p))
  }

  /** The step issues no more than the plan, and the counts are taken over only after all of it is issued. */
  ghost predicate Planned(P: Program, s: System, e: Event)
    requires Formed(P, s) && Enabled(P, s, e)
  {
    match e
    case Issue(p, d) => s.procs[p].verbs.numMsgsSync[d] < P.plan(p, d, Counter(s, p))
    case CallSync(p) => IssuedAll(P, s, p)
    case _ => true
  }

  /** Process p has posted an operation to d, which carries p's counter. */
  ghost function AfterPost(s: System, p: nat, d: nat): System
    requires p < |s.procs| && d < |s.procs[p].verbs.numMsgsSync|
  {
    var pr := s.procs[p];
    System(s.procs[p := pr.(verbs := Post(pr.verbs, d), unacked := pr.unacked + 1)],
           Bump(s.flight, p, d, Counter(s, p)), s.delivered)
  }

  ghost function Apply(P: Program, s: System, e: Event): System
    requires Formed(P, s) && Enabled(P, s, e)
  {
    match e
    case Issue(p, d) => AfterPost(s, p, d)
    case Ack(p) =>
      var pr := s.procs[p];
      s.(procs := s.procs[p := pr.(verbs := Acknowledge(pr.verbs, 1), unacked := pr.unacked - 1)])
    case Deliver(q, d, k) =>
      var pr := s.procs[d];
      System(s.procs[d := pr.(verbs := Arrive(pr.verbs, k))],
             Drop(s.flight, q, d, k), Bump(s.delivered, q, d, k))
    case CallVote(p) =>
      var pr := s.procs[p];
      s.(procs := s.procs[p := pr.(stage := Voting, calls := pr.calls + [Vote])])
    case CallSync(p) =>
      var pr := s.procs[p];
      var a := AttrNow(P, s, p);
      if NeedsExchange(pr.verbs.cached, a.mode) then
        s.(procs := s.procs[p := pr.(verbs := Snapshot(pr.verbs), stage := Exchanging,
                                     calls := pr.calls + [Exchange(pr.verbs.numMsgsSync)])])
      else
        s.(procs := s.procs[p := pr.(verbs := Activate(Snapshot(pr.verbs), a, 0), stage := Computing)])
    case ReturnExchange(p) =>
      var pr := s.procs[p];
      var sum := ExchangeSum(s, |pr.calls| - 1, p, P.n);
      s.(procs := s.procs[p := pr.(verbs := Activate(pr.verbs, AttrNow(P, s, p), sum), stage := Computing)])
    case Visit(p, flag) =>
      var pr := s.procs[p];
      var v := Progress(pr.verbs, flag);
      var barrier := v.request.secondPhase && !pr.verbs.request.secondPhase;
      s.(procs := s.procs[p := pr.(verbs := v, calls := if barrier then pr.calls + [Barrier] else pr.calls)])
  }

  ghost predicate Step(P: Program, s: System, e: Event, s': System) {
    Formed(P, s) && Enabled(P, s, e) && s' == Apply(P, s, e)
  }

  ghost predicate PlannedStep(P: Program, s: System, e: Event, s': System) {
    Step(P, s, e, s') && Planned(P, s, e)
  }

  lemma FormedKept(P: Program, s: System, e: Event, s': System)
    requires Step(P, s, e, s')
    ensures Formed(P, s')
  {
  }

  ghost predicate IsRun(P: Program, run: seq<System>, events: seq<Event>) {
    && |run| == |events| + 1
    && run[0] == Init(P)
    && forall i: nat :: i < |events| ==> Step(P, run[i], events[i], run[i + 1])
  }

  ghost predicate IsPlannedRun(P: Program, run: seq<System>, events: seq<Event>) {
    && |run| == |events| + 1
    && run[0] == Init(P)
    && forall i: nat :: i < |events| ==> PlannedStep(P, run[i], events[i], run[i + 1])
  }

  /** Nothing that p has sent to d in an earlier superstep than k is still on its way. */
  ghost predicate Clear(s: System, p: nat, d: nat, k: nat) {
    forall j: nat :: j < k ==> s.flight(p, d, j) == 0
  }

  /** The connection between two processes delivers in the order of issue; different ones are independent. */
  ghost predicate InOrder(s: System, e: Event) {
    match e
    case Deliver(q, d, k) => Clear(s, q, d, k)
    case _ => true
  }

  ghost predicate IsOrdered(run: seq<System>, events: seq<Event>) {
    |events| <= |run| && forall i: nat :: i < |events| ==> InOrder(run[i], events[i])
  }

  // ---------------------------------------------------------------- what a program asks for

  /** `m_sync_cached` and `m_sync_cached_value` of process p before superstep k. */
  ghost function CacheAt(P: Program, k: nat, p: nat): (bool, nat) {
    if k == 0 then (false, 0)
    else
      var c := CacheAt(P, k - 1, p);
      var mode := P.attr(k - 1, p).mode;
      (if mode.Default? then false else c.0 || mode.Cached?,
       if NeedsExchange(c.0, mode) then Incoming(P.plan, P.n, p, k - 1) else c.1)
  }

  ghost predicate Exchanges(P: Program, k: nat, p: nat) {
    NeedsExchange(CacheAt(P, k, p).0, P.attr(k, p).mode)
  }

  /** The number a sync without an exchange waits for. */
  ghost function Given(P: Program, k: nat, p: nat): nat {
    match P.attr(k, p).mode
    case Cached => CacheAt(P, k, p).1
    case Message(count) => count
    case _ => 0
  }

  /** Processes p and q make the same collective calls in superstep k. */
  ghost predicate AgreedAt(P: Program, k: nat, p: nat, q: nat) {
    && (P.attr(k, p).mode.Default? ==> P.attr(k, p).barrier)
    && P.attr(k, p).barrier == P.attr(k, q).barrier
    && P.attr(k, p).mode.Default? == P.attr(k, q).mode.Default?
    && Exchanges(P, k, p) == Exchanges(P, k, q)
  }

  ghost predicate Agreed(P: Program) {
    forall k: nat, p: nat, q: nat :: p < P.n && q < P.n ==> AgreedAt(P, k, p, q)
  }

  /** A count that is cached or passed by the caller is the number of operations that come in. */
  ghost predicate CountRightAt(P: Program, k: nat, p: nat) {
    !Exchanges(P, k, p) ==> Given(P, k, p) == Incoming(P.plan, P.n, p, k)
  }

  ghost predicate CountsRight(P: Program) {
    forall k: nat, p: nat :: p < P.n ==> CountRightAt(P, k, p)
  }

  type Neighbours = (nat, nat) -> bool

  /**
   * Processes only address neighbours, and in a superstep without barrier every process hears
   * from each of its neighbours.
   */
  ghost predicate Symmetric(nb: Neighbours) {
    forall p: nat, q: nat :: nb(p, q) ==> nb(q, p)
  }

  ghost predicate Hears(P: Program, nb: Neighbours, p: nat, q: nat, k: nat) {
    && (P.plan(q, p, k) > 0 ==> nb(q, p))
    && (!P.attr(k, p).barrier && nb(q, p) ==> P.plan(q, p, k) > 0)
  }

  ghost predicate Paced(P: Program, nb: Neighbours) {
    && Symmetric(nb)
    && forall k: nat, p: nat, q: nat :: p < P.n && q < P.n && p != q ==> Hears(P, nb, p, q, k)
  }

  ghost predicate WellSynced(P: Program, nb: Neighbours) {
    Agreed(P) && CountsRight(P) && Paced(P, nb)
  }

  // ---------------------------------------------------------------- scripts of collectives

  ghost function Row(P: Program, p: nat, k: nat): seq<nat> {
    seq(P.n, d requires 0 <= d => P.plan(p, d, k))
  }

  ghost function BeforeRequest(P: Program, k: nat, p: nat): seq<Call> {
    (if P.attr(k, p).mode.Default? then [Vote] else [])
    + (if Exchanges(P, k, p) then [Exchange(Row(P, p, k))] else [])
  }

  ghost function StepCalls(P: Program, k: nat, p: nat): seq<Call> {
    BeforeRequest(P, k, p) + (if P.attr(k, p).barrier then [Barrier] else [])
  }

  /** Every collective call process p makes before superstep k. */
  ghost function Script(P: Program, k: nat, p: nat): seq<Call> {
    if k == 0 then [] else Script(P, k - 1, p) + StepCalls(P, k - 1, p)
  }

  ghost predicate SameKind(c: Call, d: Call) {
    c.Vote? == d.Vote? && c.Exchange? == d.Exchange? && c.Barrier? == d.Barrier?
  }

  ghost predicate Alike(a: seq<Call>, b: seq<Call>) {
    |a| == |b| && forall i :: 0 <= i < |a| ==> SameKind(a[i], b[i])
  }

  lemma StepCallsAlike(P: Program, k: nat, p: nat, q: nat)
    requires Agreed(P) && p < P.n && q < P.n
    ensures |BeforeRequest(P, k, p)| == |BeforeRequest(P, k, q)|
    ensures Alike(StepCalls(P, k, p), StepCalls(P, k, q))
  {
    assert AgreedAt(P, k, p, q);
  }

  lemma {:induction false} ScriptsAlike(P: Program, k: nat, p: nat, q: nat)
    requires Agreed(P) && p < P.n && q < P.n
    ensures Alike(Script(P, k, p), Script(P, k, q))
  {
    if k > 0 {
      ScriptsAlike(P, k - 1, p, q);
      StepCallsAlike(P, k - 1, p, q);
      AlikeAppend(Script(P, k - 1, p), Script(P, k - 1, q), StepCalls(P, k - 1, p), StepCalls(P, k - 1, q));
    }
  }

  lemma AlikeAppend(a: seq<Call>, b: seq<Call>, c: seq<Call>, d: seq<Call>)
    requires Alike(a, b) && Alike(c, d)
    ensures Alike(a + c, b + d)
  {
    forall i | 0 <= i < |a + c| ensures SameKind((a + c)[i], (b + d)[i]) {
      if i >= |a| {
        assert (a + c)[i] == c[i - |a|] && (b + d)[i] == d[i - |b|];
      }
    }
  }

  lemma {:induction false} ScriptGrows(P: Program, j: nat, k: nat, p: nat)
    requires j <= k
    ensures Script(P, j, p) <= Script(P, k, p)
    decreases k - j
  {
    if j < k {
      ScriptGrows(P, j + 1, k, p);
    }
  }
}
