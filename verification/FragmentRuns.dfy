/** What every run of a round of messages delivers, and why it gets to its end. */
module FragmentRuns {
  import opened Arithmetic
  import opened SwapRemoval
  import opened Messaging
  import opened Fragments

  // ---------------------------------------------------------------- whole runs

  /** No assertion of the code fails, and no message is longer than the receive it goes to. */
  lemma StepIsSafe<B(!new)>(R: Round<B>, s: System<B>, e: Event)
    requires Matched(R) && Inv(R, s) && Enabled(R, s, e)
    ensures Safe(R, s, e)
  {
    match e
    case EnterLoop(p) => assert ProcessFits(R, s, p);
    case Continue(p, j) => var _ := ActiveLarge(R, s, p, j);
    case Receive(p, src, tag) => var _ := HeadFits(R, s, p, src, tag);
    case _ =>
  }

  lemma StepKeeps<B(!new)>(R: Round<B>, s: System<B>, e: Event)
    requires Matched(R) && Inv(R, s) && Enabled(R, s, e) && Safe(R, s, e)
    ensures Inv(R, Apply(R, s, e))
  {
    match e
    case Isend(p) => IsendKeeps(R, s, p);
    case Irecv(p) => IrecvKeeps(R, s, p);
    case Continue(p, j) => ContinueKeeps(R, s, p, j);
    case Dequeue(p) => DequeueKeeps(R, s, p);
    case Receive(p, src, tag) => ReceiveKeeps(R, s, p, src, tag);
    case Leave(p) => LeaveKeeps(R, s, p);
    case _ => StageKeeps(R, s, e);
  }

  lemma {:induction false} RunFits<B(!new)>(R: Round<B>, run: seq<System<B>>, i: nat)
    requires Matched(R) && IsRun(R, run) && i < |run|
    ensures Inv(R, run[i])
  {
    if i == 0 {
      InitFits(R);
    } else {
      RunFits(R, run, i - 1);
      assert IsStep(R, run[i - 1], run[i - 1 + 1]);
      var e :| Enabled(R, run[i - 1], e) && Safe(R, run[i - 1], e) && run[i] == Apply(R, run[i - 1], e);
      StepKeeps(R, run[i - 1], e);
    }
  }

  /** Sender and receiver cut every message alike: whatever arrives fits what is left of its receive. */
  lemma RunIsSafe<B(!new)>(R: Round<B>, run: seq<System<B>>, i: nat, e: Event)
    requires Matched(R) && IsRun(R, run) && i < |run| && Enabled(R, run[i], e)
    ensures Safe(R, run[i], e)
  {
    RunFits(R, run, i);
    StepIsSafe(R, run[i], e);
  }

  lemma {:induction false} NoneOpen<B>(R: Round<B>, p: nat, recvs: seq<Recv<B>>, m: nat, tag: nat)
    requires Open(R, p, recvs, m) == 0 && tag < m
    ensures !IsOpen(R, p, recvs, tag)
  {
    if tag < m - 1 {
      NoneOpen(R, p, recvs, m - 1, tag);
    }
  }

  /** A process whose loop is over has all of its messages. */
  lemma FinishedHasAll<B(!new)>(R: Round<B>, s: System<B>, p: nat, q: nat, k: nat)
    requires Matched(R) && Inv(R, s) && p < R.n && Finished(s, p)
    requires q < R.n && k < |R.sends(q)| && R.sends(q)[k].dst == p
    ensures var d := R.sends(q)[k];
            && d.tag < |s.procs[p].box.recvs|
            && s.procs[p].box.recvs[d.tag].buffer == d.data
            && Cut(|d.data|, R.limit, TakenFrom(s, p, d.tag)) == |d.data|
  {
    var d := R.sends(q)[k];
    assert Addresses(R, q, k, p, d.tag);
    assert ProcessFits(R, s, p);
    assert RecvFits(R, s, p, d.tag);
    var r := s.procs[p].box.recvs[d.tag];
    NoneOpen(R, p, s.procs[p].box.recvs, |s.procs[p].box.recvs|, d.tag);
    assert Holds(R, q, k, r.buffer, |d.data|);
    assert r.buffer[..|d.data|] == r.buffer && d.data[..|d.data|] == d.data;
  }

  /**
   * When any process leaves the barrier, every receive buffer of every process equals what was
   * sent to it, and no message is on any wire: nothing of this round can reach the next.
   */
  lemma RoundDelivers<B(!new)>(R: Round<B>, run: seq<System<B>>, i: nat, p: nat)
    requires Matched(R) && IsRun(R, run) && i < |run| && p < R.n && |run[i].procs| == R.n && run[i].procs[p].stage.Done?
    ensures forall q: nat, dst: nat, tag: nat :: run[i].wire(q, dst, tag) == []
    ensures forall q: nat, k: nat :: q < R.n && k < |R.sends(q)| ==>
              R.sends(q)[k].dst < R.n && R.sends(q)[k].tag < |run[i].procs[R.sends(q)[k].dst].box.recvs|
              && run[i].procs[R.sends(q)[k].dst].box.recvs[R.sends(q)[k].tag].buffer == R.sends(q)[k].data
  {
    var s := run[i];
    RunFits(R, run, i);
    forall q: nat, k: nat | q < R.n && k < |R.sends(q)|
      ensures R.sends(q)[k].dst < R.n && R.sends(q)[k].tag < |s.procs[R.sends(q)[k].dst].box.recvs|
      ensures s.procs[R.sends(q)[k].dst].box.recvs[R.sends(q)[k].tag].buffer == R.sends(q)[k].data
    {
      assert Addresses(R, q, k, R.sends(q)[k].dst, R.sends(q)[k].tag);
      assert Entered(s, R.sends(q)[k].dst);
      FinishedHasAll(R, s, R.sends(q)[k].dst, q, k);
    }
    forall q: nat, dst: nat, tag: nat ensures s.wire(q, dst, tag) == [] {
      assert WireFits(R, s, q, dst, tag);
      if k: nat :| Addresses(R, q, k, dst, tag) {
        NothingOnWire(R, s, q, k);
      }
    }
  }

  lemma NothingOnWire<B(!new)>(R: Round<B>, s: System<B>, q: nat, k: nat)
    requires Matched(R) && Inv(R, s) && q < R.n && k < |R.sends(q)|
    requires R.sends(q)[k].dst < R.n && Finished(s, R.sends(q)[k].dst)
    ensures s.wire(q, R.sends(q)[k].dst, R.sends(q)[k].tag) == []
  {
    var d := R.sends(q)[k];
    FinishedHasAll(R, s, d.dst, q, k);
    assert ProcessFits(R, s, q);
    assert SendFits(R, s, q, k);
    NeededIsLeast(|d.data|, R.limit, SentTo(s, q, d.dst, d.tag), TakenFrom(s, d.dst, d.tag));
  }

  // ---------------------------------------------------------------- progress

  /** What is left of a long send once its fragment is out. */
  function Rest(entry: Entry, limit: nat): nat {
    if entry.request.Active? && entry.send.size > limit then entry.send.size - limit else 0
  }

  function Unsent(large: seq<Entry>, limit: nat): nat {
    if large == [] then 0 else Unsent(large[..|large| - 1], limit) + Rest(large[|large| - 1], limit)
  }

  ghost function Unreceived<B>(R: Round<B>, p: nat, recvs: seq<Recv<B>>, m: nat): nat
    requires m <= |recvs|
  {
    if m == 0 then 0 else Unreceived(R, p, recvs, m - 1) + if IsOpen(R, p, recvs, m - 1) then recvs[m - 1].size else 0
  }

  /** The bytes process p has yet to send or to receive. */
  ghost function Outstanding<B>(R: Round<B>, s: System<B>, p: nat): nat
    requires p < |s.procs|
  {
    var b := s.procs[p].box;
    Unsent(b.large, R.limit) + Unreceived(R, p, b.recvs, |b.recvs|)
  }

  lemma {:induction false} UnsentUpdate(large: seq<Entry>, j: nat, entry: Entry, limit: nat)
    requires j < |large|
    ensures Unsent(large[j := entry], limit) + Rest(large[j], limit) == Unsent(large, limit) + Rest(entry, limit)
  {
    var n := |large| - 1;
    if j == n {
      assert large[j := entry][..n] == large[..n];
    } else {
      UnsentUpdate(large[..n], j, entry, limit);
      assert large[j := entry][..n] == large[..n][j := entry];
    }
  }

  lemma {:induction false} UnreceivedStays<B>(R: Round<B>, p: nat, recvs: seq<Recv<B>>, recvs': seq<Recv<B>>, m: nat)
    requires |recvs'| == |recvs| && m <= |recvs| && forall i: nat :: i < m ==> recvs'[i] == recvs[i]
    ensures Unreceived(R, p, recvs', m) == Unreceived(R, p, recvs, m)
  {
    if m > 0 {
      UnreceivedStays(R, p, recvs, recvs', m - 1);
    }
  }

  lemma {:induction false} UnreceivedShrinks<B>(
    R: Round<B>, p: nat, recvs: seq<Recv<B>>, recvs': seq<Recv<B>>, m: nat, tag: nat)
    requires |recvs'| == |recvs| && tag < m <= |recvs| && IsOpen(R, p, recvs, tag)
    requires forall i: nat :: i < |recvs| && i != tag ==> recvs'[i] == recvs[i]
    requires IsOpen(R, p, recvs', tag) ==> recvs'[tag].size < recvs[tag].size
    requires recvs[tag].size > 0
    ensures Unreceived(R, p, recvs', m) < Unreceived(R, p, recvs, m)
  {
    if tag < m - 1 {
      UnreceivedShrinks(R, p, recvs, recvs', m - 1, tag);
    } else {
      UnreceivedStays(R, p, recvs, recvs', m - 1);
    }
  }

  lemma ContinueProgresses<B(!new)>(R: Round<B>, s: System<B>, p: nat, j: nat)
    requires Matched(R) && Inv(R, s) && Enabled(R, s, Continue(p, j)) && Safe(R, s, Continue(p, j))
    ensures Outstanding(R, Apply(R, s, Continue(p, j)), p) < Outstanding(R, s, p)
  {
    UnsentUpdate(s.procs[p].box.large, j, Apply(R, s, Continue(p, j)).procs[p].box.large[j], R.limit);
  }

  lemma ReceiveProgresses<B(!new)>(R: Round<B>, s: System<B>, p: nat, src: nat, tag: nat)
    requires Matched(R) && Inv(R, s) && Enabled(R, s, Receive(p, src, tag)) && Safe(R, s, Receive(p, src, tag))
    ensures Outstanding(R, Apply(R, s, Receive(p, src, tag)), p) < Outstanding(R, s, p)
  {
    var t, recvs := Apply(R, s, Receive(p, src, tag)), s.procs[p].box.recvs;
    var own := HeadFits(R, s, p, src, tag);
    var total := |R.recvs(p)[tag]|;
    var upto := Cut(total, R.limit, recvs[tag].taken);
    assert Cut(total, R.limit, recvs[tag].taken + 1) == upto + Min(R.limit, total - upto);
    UnreceivedShrinks(R, p, recvs, t.procs[p].box.recvs, |recvs|, tag);
  }

  /** Continuing a send or receiving a fragment leaves a process with fewer bytes outstanding. */
  lemma StepProgresses<B(!new)>(R: Round<B>, s: System<B>, e: Event)
    requires Matched(R) && Inv(R, s) && Enabled(R, s, e) && Safe(R, s, e) && (e.Continue? || e.Receive?)
    ensures Outstanding(R, Apply(R, s, e), e.p) < Outstanding(R, s, e.p)
  {
    match e
    case Continue(p, j) => ContinueProgresses(R, s, p, j);
    case Receive(p, src, tag) => ReceiveProgresses(R, s, p, src, tag);
  }

  lemma {:induction false} SomeOpen<B>(R: Round<B>, p: nat, recvs: seq<Recv<B>>, m: nat) returns (tag: nat)
    requires Open(R, p, recvs, m) > 0
    ensures tag < m && IsOpen(R, p, recvs, tag)
  {
    if IsOpen(R, p, recvs, m - 1) {
      tag := m - 1;
    } else {
      tag := SomeOpen(R, p, recvs, m - 1);
    }
  }

  // ---------------------------------------------------------------- the small sends

  /** The long sends whose last fragment is still to be started. */
  function Unfinished(large: seq<Entry>): nat {
    if large == [] then 0
    else Unfinished(large[..|large| - 1]) + if IsNull(large[|large| - 1]) then 0 else 1
  }

  lemma {:induction false} UnfinishedUpdate(large: seq<Entry>, j: nat, entry: Entry)
    requires j < |large|
    ensures Unfinished(large[j := entry]) + (if IsNull(large[j]) then 0 else 1)
            == Unfinished(large) + if IsNull(entry) then 0 else 1
  {
    var n := |large| - 1;
    if j == n {
      assert large[j := entry][..n] == large[..n];
    } else {
      UnfinishedUpdate(large[..n], j, entry);
      assert large[j := entry][..n] == large[..n][j := entry];
    }
  }

  lemma {:induction false} SweepKeepsUnfinished(large: seq<Entry>, i: nat)
    requires i <= |large|
    ensures Unfinished(SweepDown(large, IsNull, i)) == Unfinished(large)
    decreases i
  {
    if i > 0 {
      if IsNull(large[i - 1]) {
        var last := large[|large| - 1];
        UnfinishedUpdate(large, i - 1, last);
        assert large[i - 1 := last][|large| - 1] == last;
        SweepKeepsUnfinished(DropAt(large, i - 1), i - 1);
      } else {
        SweepKeepsUnfinished(large, i - 1);
      }
    }
  }

  function Actives(small: seq<Request>): nat {
    if small == [] then 0 else Actives(small[..|small| - 1]) + if small[|small| - 1].Active? then 1 else 0
  }

  /** How many of the first `m` sends have something to send. */
  function NonEmpty<B>(sends: seq<Send<B>>, m: nat): nat
    requires m <= |sends|
  {
    if m == 0 then 0 else NonEmpty(sends, m - 1) + if sends[m - 1].data != [] then 1 else 0
  }

  /**
   * Every message has one small request: its own, or the one of its last fragment; the active ones are
   * those of messages that are not empty.
   */
  ghost predicate OneSmallEach<B>(R: Round<B>, p: nat, pr: Process<B>) {
    && |pr.box.small| + Unfinished(pr.box.large) == pr.posted <= |R.sends(p)|
    && Actives(pr.box.small) + Unfinished(pr.box.large) == NonEmpty(R.sends(p), pr.posted)
  }

  lemma OneMoreActive(small: seq<Request>, request: Request)
    ensures Actives(small + [request]) == Actives(small) + if request.Active? then 1 else 0
  {
    assert (small + [request])[..|small|] == small;
  }

  lemma IsendKeepsSmall<B(!new)>(R: Round<B>, s: System<B>, p: nat)
    requires Matched(R) && Enabled(R, s, Isend(p)) && OneSmallEach(R, p, s.procs[p])
    ensures OneSmallEach(R, p, Apply(R, s, Isend(p)).procs[p])
  {
    var b, b' := s.procs[p].box, Apply(R, s, Isend(p)).procs[p].box;
    if |b'.large| > |b.large| {
      assert b'.large[..|b.large|] == b.large && b'.small == b.small;
    } else {
      assert b'.large == b.large;
      OneMoreActive(b.small, if R.sends(p)[s.procs[p].posted].data != [] then Active else Null);
    }
  }

  lemma ContinueKeepsSmall<B(!new)>(R: Round<B>, s: System<B>, p: nat, j: nat)
    requires Enabled(R, s, Continue(p, j)) && Safe(R, s, Continue(p, j)) && OneSmallEach(R, p, s.procs[p])
    ensures OneSmallEach(R, p, Apply(R, s, Continue(p, j)).procs[p])
  {
    var b, b' := s.procs[p].box, Apply(R, s, Continue(p, j)).procs[p].box;
    UnfinishedUpdate(b.large, j, b'.large[j]);
    OneMoreActive(b.small, Active);
    assert |b'.small| == |b.small| ==> b'.small == b.small;
  }

  lemma StepKeepsSmall<B(!new)>(R: Round<B>, s: System<B>, e: Event)
    requires Matched(R) && Enabled(R, s, e) && Safe(R, s, e) && OneSmallEach(R, e.p, s.procs[e.p])
    ensures OneSmallEach(R, e.p, Apply(R, s, e).procs[e.p])
  {
    var b, b' := s.procs[e.p].box, Apply(R, s, e).procs[e.p].box;
    match e
    case Isend(p) => IsendKeepsSmall(R, s, p);
    case Continue(p, j) => ContinueKeepsSmall(R, s, p, j);
    case Dequeue(_) => SweepKeepsUnfinished(b.large, |b.large|);
    case _ => assert b'.large == b.large && b'.small == b.small;
  }

  lemma {:induction false} RunKeepsSmall<B(!new)>(R: Round<B>, run: seq<System<B>>, i: nat, p: nat)
    requires Matched(R) && IsRun(R, run) && i < |run| && p < R.n
    ensures |run[i].procs| == R.n && OneSmallEach(R, p, run[i].procs[p])
  {
    RunFits(R, run, i);
    if i > 0 {
      RunFits(R, run, i - 1);
      RunKeepsSmall(R, run, i - 1, p);
      assert IsStep(R, run[i - 1], run[i - 1 + 1]);
      var e :| Enabled(R, run[i - 1], e) && Safe(R, run[i - 1], e) && run[i] == Apply(R, run[i - 1], e);
      if e.p == p {
        StepKeepsSmall(R, run[i - 1], e);
      }
    }
  }

  /**
   * The wait that follows the loop covers every message of the process exactly once, and waits for just
   * those that are not empty.
   */
  lemma AllSendsAwaited<B(!new)>(R: Round<B>, run: seq<System<B>>, i: nat, p: nat)
    requires Matched(R) && IsRun(R, run) && i < |run| && p < R.n
    requires |run[i].procs| == R.n && run[i].procs[p].stage.Draining?
    ensures |run[i].procs[p].box.small| == |R.sends(p)|
    ensures Actives(run[i].procs[p].box.small) == NonEmpty(R.sends(p), |R.sends(p)|)
  {
    RunFits(R, run, i);
    assert ProcessFits(R, run[i], p);
    RunKeepsSmall(R, run, i, p);
  }

  // ---------------------------------------------------------------- no deadlock

  /** A step that changes something. */
  ghost predicate Useful<B>(s: System<B>, e: Event)
    requires e.p < |s.procs|
  {
    var large := s.procs[e.p].box.large;
    e.Dequeue? ==> exists j: nat :: j < |large| && IsNull(large[j])
  }

  /** Nothing process p has sent is still on its way. */
  ghost predicate AllTaken<B>(s: System<B>, p: nat) {
    forall dst: nat, tag: nat :: s.wire(p, dst, tag) == []
  }

  /** The step is possible even if MPI completes no send before its message is received. */
  ghost predicate NeedsNoBuffers<B>(s: System<B>, e: Event)
    requires e.p < |s.procs|
  {
    match e
    case Continue(p, j) =>
      j < |s.procs[p].box.large| && var l := s.procs[p].box.large[j].send; s.wire(p, l.dst, l.tag) == []
    case Drain(p) => AllTaken(s, p)
    case _ => true
  }

  /** A receive that is open while all long sends are out has its next fragment on the wire. */
  lemma OpenHasMessage<B(!new)>(R: Round<B>, s: System<B>, p: nat, tag: nat) returns (src: nat)
    requires Matched(R) && Inv(R, s) && p < R.n && s.procs[p].stage.Waiting? && IsOpen(R, p, s.procs[p].box.recvs, tag)
    requires forall q: nat :: q < R.n ==> !s.procs[q].stage.Starting? && s.procs[q].box.large == []
    ensures s.wire(src, p, tag) != []
  {
    assert HasSender(R, p, tag);
    var q: nat, k: nat :| Addresses(R, q, k, p, tag);
    src := q;
    assert ProcessFits(R, s, p) && ProcessFits(R, s, q);
    assert SendFits(R, s, q, k);
  }

  /** A fragment on the wire finds its receiver still looking for messages. */
  lemma ReceiverWaits<B(!new)>(R: Round<B>, s: System<B>, q: nat, dst: nat, tag: nat)
    requires Matched(R) && Inv(R, s) && s.wire(q, dst, tag) != []
    requires forall x: nat :: x < R.n ==> !s.procs[x].stage.Starting?
    ensures dst < R.n && s.procs[dst].stage.Waiting?
  {
    assert WireFits(R, s, q, dst, tag);
    var k: nat :| Addresses(R, q, k, dst, tag);
    if Finished(s, dst) {
      NothingOnWire(R, s, q, k);
    }
  }

  lemma StartGoesOn<B(!new)>(R: Round<B>, s: System<B>, p: nat) returns (e: Event)
    requires Matched(R) && Inv(R, s) && p < R.n && s.procs[p].stage.Starting?
    ensures Enabled(R, s, e) && Useful(s, e) && NeedsNoBuffers(s, e)
  {
    assert ProcessFits(R, s, p);
    var pr := s.procs[p];
    e := if pr.posted < |R.sends(p)| then Isend(p)
         else if |pr.box.recvs| < |R.recvs(p)| then Irecv(p) else EnterLoop(p);
  }

  /** A process with long sends, while all have started their messages. */
  lemma LargeGoesOn<B(!new)>(R: Round<B>, s: System<B>, q: nat) returns (e: Event)
    requires Matched(R) && Inv(R, s) && q < R.n && s.procs[q].box.large != []
    requires forall x: nat :: x < R.n ==> !s.procs[x].stage.Starting?
    ensures Enabled(R, s, e) && Useful(s, e) && NeedsNoBuffers(s, e)
  {
    assert ProcessFits(R, s, q);
    var Entry(l, r) := s.procs[q].box.large[0];
    if r.Null? {
      e := Dequeue(q);
    } else if s.wire(q, l.dst, l.tag) == [] {
      e := Continue(q, 0);
    } else {
      ReceiverWaits(R, s, q, l.dst, l.tag);
      e := Receive(l.dst, q, l.tag);
    }
  }

  /** A process in its loop, once all long sends are out. */
  lemma WaitGoesOn<B(!new)>(R: Round<B>, s: System<B>, p: nat) returns (e: Event)
    requires Matched(R) && Inv(R, s) && p < R.n && s.procs[p].stage.Waiting?
    requires forall q: nat :: q < R.n ==> !s.procs[q].stage.Starting? && s.procs[q].box.large == []
    ensures Enabled(R, s, e) && Useful(s, e) && NeedsNoBuffers(s, e)
  {
    if s.procs[p].box.waiting == 0 {
      e := Finish(p);
    } else {
      assert ProcessFits(R, s, p);
      var tag := SomeOpen(R, p, s.procs[p].box.recvs, |s.procs[p].box.recvs|);
      var src := OpenHasMessage(R, s, p, tag);
      e := Receive(p, src, tag);
    }
  }

  /** A process that waits for its small sends, once everybody's loop is over. */
  lemma DrainGoesOn<B(!new)>(R: Round<B>, s: System<B>, p: nat)
    requires Matched(R) && Inv(R, s) && p < R.n && forall q: nat :: q < R.n ==> Finished(s, q)
    ensures AllTaken(s, p)
  {
    forall dst: nat, tag: nat ensures s.wire(p, dst, tag) == [] {
      assert WireFits(R, s, p, dst, tag);
      if k: nat :| Addresses(R, p, k, dst, tag) {
        assert Finished(s, dst);
        NothingOnWire(R, s, p, k);
      }
    }
  }

  /**
   * As long as a process has not left the barrier, some process can take a useful step, even if MPI
   * buffers nothing: a long send goes on, and the small sends are complete, only once received.
   */
  lemma NeverStuck<B(!new)>(R: Round<B>, s: System<B>, p: nat) returns (e: Event)
    requires Matched(R) && Inv(R, s) && p < R.n && !s.procs[p].stage.Done?
    ensures Enabled(R, s, e) && Safe(R, s, e) && Useful(s, e) && NeedsNoBuffers(s, e)
  {
    if q: nat :| q < R.n && s.procs[q].stage.Starting? {
      e := StartGoesOn(R, s, q);
    } else if q: nat :| q < R.n && s.procs[q].box.large != [] {
      e := LargeGoesOn(R, s, q);
    } else if q: nat :| q < R.n && s.procs[q].stage.Waiting? {
      e := WaitGoesOn(R, s, q);
    } else if q: nat :| q < R.n && s.procs[q].stage.Draining? {
      assert forall x: nat :: x < R.n ==> Finished(s, x);
      DrainGoesOn(R, s, q);
      e := Drain(q);
    } else {
      assert forall x: nat :: x < R.n ==> Entered(s, x);
      e := Leave(p);
    }
    StepIsSafe(R, s, e);
  }
}
