/**
 * Two sparse all-to-alls one after the other.  Every exchange uses the same tag, so a process that
 * polls in one exchange takes whatever fragment is addressed to it.
 */
module NbxSeries {
  import opened NbxSends
  import opened Nbx
  import opened NbxDelivery
  import opened NbxProgress

  /**
   * The callers make process p wait between its two calls until the processes q with `waits(p, q)`
   * have returned from the first one.  A barrier between the calls waits for everybody.
   */
  datatype Series = Series(first: Exchange, second: Exchange, waits: (nat, nat) -> bool)

  /** A fragment of the first or of the second exchange. */
  datatype Message = Message(second: bool, f: Fragment)

  /** Each process is in one exchange at a time; the two flights are one network; `sent` is its history. */
  datatype Both = Both(one: System, two: System, sent: seq<Message>)

  datatype Move =
    | InFirst(e: Event)
    | InSecond(e: Event)
    | Early(p: nat, f: Fragment)
    | Late(p: nat, f: Fragment)

  ghost predicate IsSeries(B: Series) {
    WellFormed(B.first) && WellFormed(B.second) && B.first.n == B.second.n
  }

  ghost function Start(B: Series): Both {
    Both(Init(B.first), Init(B.second), [])
  }

  ghost predicate HasLeft(s: System, p: nat)
    requires p < |s.procs|
  {
    s.procs[p].stage.Left?
  }

  ghost predicate Polls(s: System, p: nat)
    requires p < |s.procs|
  {
    s.procs[p].stage.Looping? || s.procs[p].stage.InBarrier?
  }

  ghost predicate Sized(B: Series, s: Both) {
    |s.one.procs| == B.first.n && |s.two.procs| == B.second.n && B.first.n == B.second.n
  }

  /** Process p has returned from the first exchange and has waited for those it is made to wait for. */
  ghost predicate MayStart(B: Series, s: Both, p: nat)
    requires Sized(B, s) && p < B.first.n
  {
    HasLeft(s.one, p) && forall q: nat :: q < B.first.n && B.waits(p, q) ==> HasLeft(s.one, q)
  }

  /** `Early` and `Late` are receives like any other, of a fragment from the other exchange. */
  ghost predicate Allowed(B: Series, s: Both, m: Move) {
    Sized(B, s) &&
    match m
    case InFirst(e) => Enabled(B.first, s.one, e)
    case InSecond(e) => Enabled(B.second, s.two, e) && MayStart(B, s, e.p)
    case Early(p, f) => p < B.first.n && Polls(s.one, p) && f in s.two.flight && f.dst == p
    case Late(p, f) => p < B.first.n && MayStart(B, s, p) && Polls(s.two, p) && f in s.one.flight && f.dst == p
  }

  function MessageOf(p: nat, it: Item, second: bool): seq<Message> {
    if it.pending == 0 then [] else [Message(second, Frag(p, it))]
  }

  /** What a step of one exchange sends. */
  ghost function SentBy(P: Exchange, s: System, e: Event, second: bool): seq<Message>
    requires Enabled(P, s, e)
  {
    match e
    case Post(p) => MessageOf(p, FirstItem(P, p, |s.procs[p].items|), second)
    case Complete(p, k) => MessageOf(p, Posted(s.procs[p].items[k], P.limit), second)
    case _ => []
  }

  ghost predicate Flies(s: Both, x: Message) {
    x.f in (if x.second then s.two else s.one).flight
  }

  /** Everything sent before x by the same process to the same process has been received. */
  ghost predicate IsNext(s: Both, x: Message) {
    exists i: nat :: NextAt(s, x, i)
  }

  ghost predicate NextAt(s: Both, x: Message, i: nat) {
    && i < |s.sent| && s.sent[i] == x
    && forall j: nat :: j < i && SamePair(s.sent[j], x) ==> !Flies(s, s.sent[j])
  }

  ghost predicate SamePair(x: Message, y: Message) {
    x.f.src == y.f.src && x.f.dst == y.f.dst
  }

  /** Messages of one source do not overtake each other, since all have the same tag. */
  ghost predicate KeepsOrder(s: Both, m: Move) {
    match m
    case InFirst(e) => e.Receive? ==> IsNext(s, Message(false, e.f))
    case InSecond(e) => e.Receive? ==> IsNext(s, Message(true, e.f))
    case Early(_, f) => IsNext(s, Message(true, f))
    case Late(_, f) => IsNext(s, Message(false, f))
  }

  ghost function Logged(s: System, p: nat, f: Fragment): System
    requires p < |s.procs|
  {
    s.(procs := s.procs[p := s.procs[p].(log := s.procs[p].log + [f], room := s.procs[p].room - f.len)])
  }

  ghost function Matched(s: System, f: Fragment): System {
    s.(flight := s.flight - multiset{f}, matched := s.matched + {f})
  }

  ghost function Perform(B: Series, s: Both, m: Move): Both
    requires Allowed(B, s, m)
  {
    match m
    case InFirst(e) => s.(one := Apply(B.first, s.one, e), sent := s.sent + SentBy(B.first, s.one, e, false))
    case InSecond(e) => s.(two := Apply(B.second, s.two, e), sent := s.sent + SentBy(B.second, s.two, e, true))
    case Early(p, f) => s.(one := Logged(s.one, p, f), two := Matched(s.two, f))
    case Late(p, f) => s.(one := Matched(s.one, f), two := Logged(s.two, p, f))
  }

  ghost predicate IsMove(B: Series, s: Both, t: Both, ordered: bool) {
    exists m :: Allowed(B, s, m) && (ordered ==> KeepsOrder(s, m)) && t == Perform(B, s, m)
  }

  ghost predicate IsHistory(B: Series, run: seq<Both>, ordered: bool) {
    && run != [] && run[0] == Start(B)
    && forall i :: 0 <= i < |run| - 1 ==> IsMove(B, run[i], run[i + 1], ordered)
  }

  ghost predicate EndsIn(B: Series, run: seq<Both>, s: Both, ordered: bool) {
    IsHistory(B, run, ordered) && run[|run| - 1] == s
  }

  /** Some run comes to s, if asked for without any message overtaking another. */
  ghost predicate Reachable(B: Series, s: Both, ordered: bool) {
    exists run :: EndsIn(B, run, s, ordered)
  }

  lemma StartReachable(B: Series)
    ensures Reachable(B, Start(B), true)
  {
    assert EndsIn(B, [Start(B)], Start(B), true);
  }

  lemma MoveReachable(B: Series, s: Both, m: Move)
    requires Reachable(B, s, true) && Allowed(B, s, m) && KeepsOrder(s, m)
    ensures Reachable(B, Perform(B, s, m), true)
  {
    var run :| EndsIn(B, run, s, true);
    var t := Perform(B, s, m);
    var longer := run + [t];
    forall i | 0 <= i < |longer| - 1 ensures IsMove(B, longer[i], longer[i + 1], true) {
      if i < |run| - 1 {
        assert IsMove(B, run[i], run[i + 1], true);
      } else {
        assert IsMove(B, s, t, true);
      }
    }
    assert EndsIn(B, longer, t, true);
  }

  /** The promise of one exchange: whoever has left leaves nothing undone, and nobody has got anything else. */
  ghost predicate Delivers(P: Exchange, s: System) {
    && |s.procs| == P.n
    && forall p: nat, q: nat :: p < P.n && q < P.n && HasLeft(s, p) ==>
         s.flight == multiset{} && Bytes(s.procs[q].log) == Owed(P, q) && InOrder(P, q, s.procs[q].log)
  }

  /** Nobody sends anything in the second exchange to a process it has not waited for. */
  ghost predicate Gated(B: Series) {
    forall p: nat, k: nat :: IsJob(B.second, p, k) ==> JobGated(B, p, k)
  }

  ghost predicate JobGated(B: Series, p: nat, k: nat)
    requires k < |B.second.jobs(p)|
  {
    var job := B.second.jobs(p)[k];
    job.count == 0 || job.dst == p || B.waits(p, job.dst)
  }

  // ---------------------------------------------------------------- gated exchanges stay apart

  ghost predicate Started(s: System, p: nat)
    requires p < |s.procs|
  {
    s.procs[p].items != [] || !s.procs[p].stage.Posting?
  }

  ghost predicate SeriesFits(B: Series, s: Both)
    requires IsSeries(B)
  {
    && Sized(B, s) && Inv(B.first, s.one) && Inv(B.second, s.two)
    && forall p: nat :: p < B.first.n && Started(s.two, p) ==> MayStart(B, s, p)
  }

  /** Leaving is for good. */
  lemma LeftStays(P: Exchange, s: System, e: Event, p: nat)
    requires Enabled(P, s, e) && p < P.n && HasLeft(s, p)
    ensures HasLeft(Apply(P, s, e), p)
  {
  }

  lemma NothingEarly(B: Series, s: Both, p: nat, f: Fragment)
    requires IsSeries(B) && Gated(B) && SeriesFits(B, s)
    ensures !Allowed(B, s, Early(p, f))
  {
    if f in s.two.flight && f.dst == p {
      FlightContinues(B.second, s.two, f);
      assert FlightFits(B.second, s.two, f);
      assert Started(s.two, f.src);
      assert JobGated(B, f.src, f.send);
    }
  }

  lemma NothingLate(B: Series, s: Both, p: nat, f: Fragment)
    requires IsSeries(B) && SeriesFits(B, s)
    ensures !Allowed(B, s, Late(p, f))
  {
    if p < B.first.n && HasLeft(s.one, p) {
      LeftIsSafe(B.first, s.one, p, p);
    }
  }

  lemma MoveFits(B: Series, s: Both, m: Move)
    requires IsSeries(B) && Gated(B) && SeriesFits(B, s) && Allowed(B, s, m)
    ensures SeriesFits(B, Perform(B, s, m))
  {
    var t := Perform(B, s, m);
    match m
    case InFirst(e) =>
      StepKeeps(B.first, s.one, e);
      forall p: nat | p < B.first.n && Started(t.two, p) ensures MayStart(B, t, p) {
        assert MayStart(B, s, p);
        LeftStays(B.first, s.one, e, p);
        forall q: nat | q < B.first.n && B.waits(p, q) ensures HasLeft(t.one, q) {
          LeftStays(B.first, s.one, e, q);
        }
      }
    case InSecond(e) =>
      StepKeeps(B.second, s.two, e);
      forall p: nat | p < B.first.n && Started(t.two, p) ensures MayStart(B, t, p) {
        assert p != e.p ==> Started(s.two, p);
        assert MayStart(B, s, p);
      }
    case Early(p, f) => NothingEarly(B, s, p, f);
    case Late(p, f) => NothingLate(B, s, p, f);
  }

  lemma {:induction false} HistoryFits(B: Series, run: seq<Both>, i: nat, ordered: bool)
    requires IsSeries(B) && Gated(B) && IsHistory(B, run, ordered) && i < |run|
    ensures SeriesFits(B, run[i])
  {
    if i == 0 {
      InitFits(B.first);
      InitFits(B.second);
    } else {
      HistoryFits(B, run, i - 1, ordered);
      assert IsMove(B, run[i - 1], run[i - 1 + 1], ordered);
      var m :| Allowed(B, run[i - 1], m) && run[i] == Perform(B, run[i - 1], m);
      MoveFits(B, run[i - 1], m);
    }
  }

  lemma FittingDelivers(P: Exchange, s: System)
    requires WellFormed(P) && Inv(P, s)
    ensures Delivers(P, s)
  {
    forall p: nat, q: nat | p < P.n && q < P.n && HasLeft(s, p)
      ensures s.flight == multiset{} && Bytes(s.procs[q].log) == Owed(P, q) && InOrder(P, q, s.procs[q].log)
    {
      LeftIsSafe(P, s, p, q);
    }
  }

  lemma GatedDelivers(B: Series, s: Both, ordered: bool)
    requires IsSeries(B) && Gated(B) && Reachable(B, s, ordered)
    ensures Delivers(B.first, s.one) && Delivers(B.second, s.two)
  {
    var run :| EndsIn(B, run, s, ordered);
    HistoryFits(B, run, |run| - 1, ordered);
    FittingDelivers(B.first, s.one);
    FittingDelivers(B.second, s.two);
  }

  // ---------------------------------------------------------------- exchanges that mix

  /** Everybody has entered the barrier of the first exchange, and nobody has left. */
  ghost predicate AllInBarrier(B: Series, s: Both) {
    Sized(B, s) && forall q: nat :: q < B.first.n ==> s.one.procs[q].stage.InBarrier?
  }

  lemma NobodyLeaves(P: Exchange, s: System, e: Event)
    requires Enabled(P, s, e) && !e.Leave? && |s.procs| == P.n
    requires forall q: nat :: q < P.n ==> !HasLeft(s, q)
    ensures |Apply(P, s, e).procs| == P.n && forall q: nat :: q < P.n ==> !HasLeft(Apply(P, s, e), q)
  {
    var t := Apply(P, s, e);
    forall q: nat | q < P.n ensures !HasLeft(t, q) {
      assert !HasLeft(s, q);
    }
  }

  /** What is in flight has been sent. */
  ghost predicate Recorded(s: Both) {
    RecordedIn(s.one, false, s.sent) && RecordedIn(s.two, true, s.sent)
  }

  ghost predicate RecordedIn(s: System, second: bool, sent: seq<Message>) {
    forall f: Fragment :: f in s.flight ==> Message(second, f) in sent
  }

  lemma StepRecords(P: Exchange, s: System, e: Event, second: bool, sent: seq<Message>)
    requires Enabled(P, s, e) && RecordedIn(s, second, sent)
    ensures RecordedIn(Apply(P, s, e), second, sent + SentBy(P, s, e, second))
  {
    var t, added := Apply(P, s, e), SentBy(P, s, e, second);
    forall f: Fragment | f in t.flight ensures Message(second, f) in sent + added {
      assert f in s.flight || Message(second, f) in added;
    }
  }

  lemma MoveRecords(B: Series, s: Both, m: Move)
    requires Allowed(B, s, m) && Recorded(s)
    ensures Recorded(Perform(B, s, m))
  {
    match m
    case InFirst(e) => StepRecords(B.first, s.one, e, false, s.sent);
    case InSecond(e) => StepRecords(B.second, s.two, e, true, s.sent);
    case Early(p, f) =>
    case Late(p, f) =>
  }

  /** The message that is due, of the same pair of processes as x. */
  lemma Earliest(s: Both, x: Message, i: nat) returns (y: Message)
    requires i < |s.sent| && s.sent[i] == x && Flies(s, x)
    ensures SamePair(y, x) && Flies(s, y) && IsNext(s, y)
    decreases i
  {
    if j: nat :| j < i && SamePair(s.sent[j], x) && Flies(s, s.sent[j]) {
      y := Earliest(s, s.sent[j], j);
    } else {
      y := x;
      assert NextAt(s, x, i);
    }
  }

  /** A step of the first exchange that leads on without overtaking. */
  lemma OrderedStep(B: Series, s: Both, p: nat) returns (e: Event)
    requires IsSeries(B) && Sized(B, s) && Inv(B.first, s.one) && s.two == Init(B.second) && Recorded(s)
    requires p < B.first.n && !Entered(s.one, p)
    ensures Enabled(B.first, s.one, e) && !e.Leave? && KeepsOrder(s, InFirst(e))
    ensures Work(B.first, Apply(B.first, s.one, e)) < Work(B.first, s.one)
  {
    e := EntersBarrier(B.first, s.one, p);
    if e.Receive? {
      var x := Message(false, e.f);
      assert Flies(s, x);
      var i: nat :| i < |s.sent| && s.sent[i] == x;
      var y := Earliest(s, x, i);
      assert !y.second;
      e := Receive(e.p, y.f);
      ReceiveLeadsOn(B.first, s.one, e.p, y.f);
    }
  }

  /** Whatever the first exchange has to do, it can be brought to its barrier. */
  lemma BringToBarrier(B: Series, s: Both) returns (t: Both)
    requires IsSeries(B) && Reachable(B, s, true) && Sized(B, s) && Inv(B.first, s.one) && s.two == Init(B.second)
    requires Recorded(s) && forall q: nat :: q < B.first.n ==> !HasLeft(s.one, q)
    ensures Reachable(B, t, true) && AllInBarrier(B, t) && Inv(B.first, t.one) && t.two == Init(B.second)
    ensures Recorded(t)
    decreases Work(B.first, s.one)
  {
    if p: nat :| p < B.first.n && !Entered(s.one, p) {
      var e := OrderedStep(B, s, p);
      MoveReachable(B, s, InFirst(e));
      MoveRecords(B, s, InFirst(e));
      StepKeeps(B.first, s.one, e);
      NobodyLeaves(B.first, s.one, e);
      t := BringToBarrier(B, Perform(B, s, InFirst(e)));
    } else {
      t := s;
      forall q: nat | q < B.first.n ensures s.one.procs[q].stage.InBarrier? {
        assert Entered(s.one, q) && !HasLeft(s.one, q);
      }
    }
  }

  /** Of the first `m` processes, all but q have left. */
  ghost predicate LeftBut(B: Series, s: Both, q: nat, m: nat) {
    && Sized(B, s)
    && forall r: nat :: r < B.first.n ==> if r < m && r != q then HasLeft(s.one, r) else s.one.procs[r].stage.InBarrier?
  }

  lemma {:induction false} LeaveAllBut(B: Series, s: Both, q: nat, m: nat) returns (t: Both)
    requires IsSeries(B) && Reachable(B, s, true) && AllInBarrier(B, s) && Inv(B.first, s.one) && m <= B.first.n
    ensures Reachable(B, t, true) && LeftBut(B, t, q, m) && Inv(B.first, t.one) && t.two == s.two
  {
    if m == 0 {
      t := s;
    } else {
      t := LeaveAllBut(B, s, q, m - 1);
      if m - 1 != q {
        var before := t;
        assert forall r: nat :: r < B.first.n ==> Entered(before.one, r);
        var e := Leave(m - 1);
        MoveReachable(B, before, InFirst(e));
        StepKeeps(B.first, before.one, e);
        t := Perform(B, before, InFirst(e));
      }
    }
  }

  /** Process p has something for q in the second exchange that nothing holds back. */
  ghost predicate Ungated(B: Series, p: nat, k: nat) {
    IsJob(B.second, p, k) && !JobGated(B, p, k)
  }

  /** The first send of p to the same process that carries anything. */
  lemma FirstTo(B: Series, p: nat, k: nat) returns (first: nat)
    requires Ungated(B, p, k)
    ensures Ungated(B, p, first) && B.second.jobs(p)[first].dst == B.second.jobs(p)[k].dst
    ensures NothingBefore(B, p, first, B.second.jobs(p)[k].dst)
    decreases k
  {
    var jobs := B.second.jobs(p);
    if j: nat :| j < k && jobs[j].dst == jobs[k].dst && jobs[j].count > 0 {
      first := FirstTo(B, p, j);
    } else {
      first := k;
    }
  }

  ghost predicate NothingBefore(B: Series, p: nat, k: nat, q: nat)
    requires p < B.second.n && k <= |B.second.jobs(p)|
  {
    forall j: nat :: j < k ==> B.second.jobs(p)[j].dst != q || B.second.jobs(p)[j].count == 0
  }

  /** Process p starts the first `k` of its sends of the second exchange; none of them is for q. */
  lemma {:induction false} PostFirst(B: Series, s: Both, p: nat, k: nat, q: nat) returns (t: Both)
    requires IsSeries(B) && Reachable(B, s, true) && Sized(B, s) && s.two == Init(B.second)
    requires p < B.first.n && MayStart(B, s, p) && k <= |B.second.jobs(p)| && NothingBefore(B, p, k, q)
    ensures Reachable(B, t, true) && Sized(B, t) && t.one == s.one
    ensures t.two.procs[p].stage.Posting? && |t.two.procs[p].items| == k
    ensures forall f: Fragment :: f in t.two.flight ==> f.dst != q
  {
    if k == 0 {
      t := s;
    } else {
      var before := PostFirst(B, s, p, k - 1, q);
      assert MayStart(B, before, p);
      MoveReachable(B, before, InSecond(Post(p)));
      t := Perform(B, before, InSecond(Post(p)));
    }
  }

  /** Process q, still polling in the first exchange, takes what p has just sent it in the second. */
  lemma TakenEarly(B: Series, s: Both, p: nat, k: nat, q: nat) returns (t: Both)
    requires IsSeries(B) && Reachable(B, s, true) && Sized(B, s) && p < B.first.n && MayStart(B, s, p)
    requires s.two.procs[p].stage.Posting? && |s.two.procs[p].items| == k < |B.second.jobs(p)|
    requires B.second.jobs(p)[k].dst == q < B.first.n && B.second.jobs(p)[k].count > 0
    requires Polls(s.one, q) && s.one.flight == multiset{} && forall f: Fragment :: f in s.two.flight ==> f.dst != q
    ensures Reachable(B, t, true) && Sized(B, t) && Bytes(t.one.procs[q].log) > Bytes(s.one.procs[q].log)
    ensures forall r: nat :: r < B.first.n && HasLeft(s.one, r) ==> HasLeft(t.one, r)
  {
    MoveReachable(B, s, InSecond(Post(p)));
    var u := Perform(B, s, InSecond(Post(p)));
    var f := Frag(p, FirstItem(B.second, p, k));
    var x := Message(true, f);
    var y := Earliest(u, x, |s.sent|);
    assert y == x;
    MoveReachable(B, u, Early(q, f));
    t := Perform(B, u, Early(q, f));
    var log := s.one.procs[q].log;
    assert (log + [f])[..|log|] == log;
  }

  /** One send that is not gated is enough for a run in which its receiver takes it for the first exchange. */
  lemma UngatedMixes(B: Series, p: nat, k: nat) returns (s: Both)
    requires IsSeries(B) && Ungated(B, p, k)
    ensures Reachable(B, s, true) && Sized(B, s) && HasLeft(s.one, p)
    ensures var q := B.second.jobs(p)[k].dst;
            q < B.first.n && Bytes(s.one.procs[q].log) > Owed(B.first, q)
  {
    var q := B.second.jobs(p)[k].dst;
    var first := FirstTo(B, p, k);
    StartReachable(B);
    InitFits(B.first);
    var s1 := BringToBarrier(B, Start(B));
    var s2 := LeaveAllBut(B, s1, q, B.first.n);
    LeftIsSafe(B.first, s2.one, p, q);
    var s3 := PostFirst(B, s2, p, first, q);
    assert MayStart(B, s3, p);
    s := TakenEarly(B, s3, p, first, q);
  }

  // ---------------------------------------------------------------- exactly when they stay apart

  ghost predicate BothDeliver(B: Series, ordered: bool) {
    forall s :: Reachable(B, s, ordered) ==> Delivers(B.first, s.one) && Delivers(B.second, s.two)
  }

  /**
   * Both exchanges keep their promise in every run if and only if nobody starts the second one
   * towards a process that has not returned from the first; that messages do not overtake each
   * other makes no difference.
   */
  lemma SeparateExactly(B: Series, ordered: bool)
    requires IsSeries(B)
    ensures BothDeliver(B, ordered) <==> Gated(B)
  {
    if Gated(B) {
      forall s | Reachable(B, s, ordered) ensures Delivers(B.first, s.one) && Delivers(B.second, s.two) {
        GatedDelivers(B, s, ordered);
      }
    } else {
      var p: nat, k: nat :| IsJob(B.second, p, k) && !JobGated(B, p, k);
      var s := UngatedMixes(B, p, k);
      OrderedIsAny(B, s);
      assert Reachable(B, s, ordered) && !Delivers(B.first, s.one);
    }
  }

  lemma OrderedIsAny(B: Series, s: Both)
    requires Reachable(B, s, true)
    ensures Reachable(B, s, false)
  {
    var run :| EndsIn(B, run, s, true);
    forall i | 0 <= i < |run| - 1 ensures IsMove(B, run[i], run[i + 1], false) {
      assert IsMove(B, run[i], run[i + 1], true);
    }
    assert EndsIn(B, run, s, false);
  }

  /** A barrier between the two calls is enough, whatever is sent. */
  lemma BarrierSeparates(B: Series, s: Both, ordered: bool)
    requires IsSeries(B) && Reachable(B, s, ordered) && forall p: nat, q: nat :: B.waits(p, q)
    ensures Delivers(B.first, s.one) && Delivers(B.second, s.two)
  {
    GatedDelivers(B, s, ordered);
  }
}
