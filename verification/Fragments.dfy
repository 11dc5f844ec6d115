/**
 * A round of point-to-point messages between `n` processes as a transition system: sends and
 * receives are started, `iwaitall` runs until nothing is left and waits for the small sends, and a
 * barrier ends the round.
 *
 * Messages of one source, destination and tag do not overtake each other; otherwise they may be
 * delayed at will.  A send may complete before its message is received.
 */
module Fragments {
  import opened Arithmetic
  import opened SwapRemoval
  import opened Messaging

  datatype Send<B> = Send(data: seq<B>, dst: nat, tag: nat)

  /** `recvs(p)` are the buffers process p receives into; its receive with tag t is number t. */
  datatype Round<B> = Round(n: nat, sends: nat -> seq<Send<B>>, recvs: nat -> seq<seq<B>>, limit: nat)

  datatype Stage = Starting | Waiting | Draining | InBarrier | Done

  datatype Process<B> = Process(stage: Stage, posted: nat, box: Box<B>)

  /** `wire(p, q, t)` are the messages on their way from p to q with tag t. */
  datatype System<B> = System(procs: seq<Process<B>>, wire: (nat, nat, nat) -> seq<seq<B>>)

  datatype Event =
    | Isend(p: nat)
    | Irecv(p: nat)
    | EnterLoop(p: nat)
    | Continue(p: nat, j: nat)
    | Dequeue(p: nat)
    | Receive(p: nat, src: nat, tag: nat)
    | Finish(p: nat)
    | Drain(p: nat)
    | Leave(p: nat)

  /** Send k of process q is the one addressed to (dst, tag). */
  ghost predicate Addresses<B>(R: Round<B>, q: nat, k: nat, dst: nat, tag: nat) {
    q < R.n && k < |R.sends(q)| && R.sends(q)[k].dst == dst && R.sends(q)[k].tag == tag
  }

  ghost predicate HasSender<B>(R: Round<B>, dst: nat, tag: nat) {
    exists q: nat, k: nat :: Addresses(R, q, k, dst, tag)
  }

  /** Sends and receives match one to one by destination and tag, with equal sizes. */
  ghost predicate Matched<B(!new)>(R: Round<B>) {
    && R.limit > 0
    && (forall q: nat, k: nat, dst: nat, tag: nat :: Addresses(R, q, k, dst, tag) ==>
          dst < R.n && tag < |R.recvs(dst)| && |R.recvs(dst)[tag]| == |R.sends(q)[k].data|)
    && (forall q: nat, k: nat, q': nat, k': nat, dst: nat, tag: nat ::
          Addresses(R, q, k, dst, tag) && Addresses(R, q', k', dst, tag) ==> q == q' && k == k')
    && forall dst: nat, tag: nat :: dst < R.n && tag < |R.recvs(dst)| ==> HasSender(R, dst, tag)
  }

  // ---------------------------------------------------------------- fragments

  lemma {:induction false} CutsAscend(total: nat, limit: nat, i: nat, j: nat)
    requires i <= j
    ensures Cut(total, limit, i) <= Cut(total, limit, j)
    decreases j
  {
    if i < j {
      CutsAscend(total, limit, i, j - 1);
    }
  }

  function Piece<B>(data: seq<B>, limit: nat, i: nat): (f: seq<B>)
    ensures |f| == Min(limit, |data| - Cut(|data|, limit, i))
  {
    assert Cut(|data|, limit, i + 1) == Cut(|data|, limit, i) + Min(limit, |data| - Cut(|data|, limit, i));
    data[Cut(|data|, limit, i)..Cut(|data|, limit, i + 1)]
  }

  /** Fragments `from` up to `upto` of a message. */
  function Pieces<B>(data: seq<B>, limit: nat, from: nat, upto: nat): seq<seq<B>>
    requires from <= upto
  {
    seq(upto - from, i requires 0 <= i => Piece(data, limit, from + i))
  }

  /** `i` fragments are the last of a message only if it does not end before. */
  ghost predicate Needed(total: nat, limit: nat, i: nat) {
    i > 0 ==> Cut(total, limit, i - 1) < total
  }

  lemma NeededIsLeast(total: nat, limit: nat, a: nat, b: nat)
    requires Needed(total, limit, a) && Cut(total, limit, b) == total
    ensures a <= b
  {
    if b < a {
      CutsAscend(total, limit, b, a - 1);
    }
  }

  // ---------------------------------------------------------------- the steps

  ghost function Extend<B>(
    wire: (nat, nat, nat) -> seq<seq<B>>, p: nat, q: nat, t: nat, f: seq<B>): (nat, nat, nat) -> seq<seq<B>> {
    (a: nat, b: nat, c: nat) => if a == p && b == q && c == t then wire(a, b, c) + [f] else wire(a, b, c)
  }

  ghost function Shorten<B>(
    wire: (nat, nat, nat) -> seq<seq<B>>, p: nat, q: nat, t: nat): (nat, nat, nat) -> seq<seq<B>>
    requires wire(p, q, t) != []
  {
    var rest := wire(p, q, t)[1..];
    (a: nat, b: nat, c: nat) => if a == p && b == q && c == t then rest else wire(a, b, c)
  }

  ghost function Init<B>(R: Round<B>): System<B> {
    System(seq(R.n, p => Process(Starting, 0, Fresh())), (a, b, c) => [])
  }

  ghost predicate Entered<B>(s: System<B>, q: nat)
    requires q < |s.procs|
  {
    s.procs[q].stage.InBarrier? || s.procs[q].stage.Done?
  }

  /** The loop of process q is over. */
  ghost predicate Finished<B>(s: System<B>, q: nat)
    requires q < |s.procs|
  {
    s.procs[q].stage.Draining? || Entered(s, q)
  }

  /** The bytes a long send is about. */
  ghost function DataOf<B>(R: Round<B>, p: nat, l: Large): seq<B> {
    if k: nat :| Addresses(R, p, k, l.dst, l.tag) then R.sends(p)[k].data else []
  }

  /** MPI only reports long sends with an active request; it gives no message that is not there. */
  ghost predicate Enabled<B>(R: Round<B>, s: System<B>, e: Event) {
    && |s.procs| == R.n && e.p < R.n
    && var pr := s.procs[e.p];
       match e
       case Isend(p) => pr.stage.Starting? && pr.posted < |R.sends(p)|
       case Irecv(p) => pr.stage.Starting? && |pr.box.recvs| < |R.recvs(p)|
       case EnterLoop(p) => pr.stage.Starting? && pr.posted == |R.sends(p)| && |pr.box.recvs| == |R.recvs(p)|
       case Continue(p, j) => pr.stage.Waiting? && j < |pr.box.large| && pr.box.large[j].request.Active?
       case Dequeue(p) => pr.stage.Waiting?
       case Receive(p, src, tag) => pr.stage.Waiting? && s.wire(src, p, tag) != []
       case Finish(p) => pr.stage.Waiting? && pr.box.waiting == 0 && pr.box.large == []
       case Drain(p) => pr.stage.Draining?
       case Leave(p) => pr.stage.InBarrier? && forall q: nat :: q < R.n ==> Entered(s, q)
  }

  /** What the code takes for granted at a step: its assertions, and that MPI does not truncate. */
  ghost predicate Safe<B>(R: Round<B>, s: System<B>, e: Event)
    requires Enabled(R, s, e)
  {
    var b := s.procs[e.p].box;
    match e
    case EnterLoop(p) => b.empties <= |b.recvs|
    case Continue(p, j) =>
      var l := b.large[j].send;
      l.size > R.limit && (l.dst, l.tag) in b.sent && |DataOf(R, p, l)| == l.addr + l.size
    case Receive(p, src, tag) =>
      && tag < |b.recvs|
      && var r, bytes := b.recvs[tag], s.wire(src, p, tag)[0];
         && r.size > 0 && |bytes| == Min(R.limit, r.size) && r.pos + |bytes| <= |r.buffer| && b.waiting > 0
    case _ => true
  }

  ghost function Apply<B>(R: Round<B>, s: System<B>, e: Event): System<B>
    requires Enabled(R, s, e) && Safe(R, s, e)
  {
    var p, pr := e.p, s.procs[e.p];
    match e
    case Isend(_) =>
      var d := R.sends(p)[pr.posted];
      var first := Min(R.limit, |d.data|);
      System(s.procs[p := pr.(posted := pr.posted + 1, box := AfterSend(pr.box, |d.data|, d.dst, d.tag, R.limit))],
             if first > 0 then Extend(s.wire, p, d.dst, d.tag, d.data[..first]) else s.wire)
    case Irecv(_) =>
      s.(procs := s.procs[p := pr.(box := AfterRecv(pr.box, R.recvs(p)[|pr.box.recvs|]))])
    case EnterLoop(_) => s.(procs := s.procs[p := pr.(stage := Waiting, box := Started(pr.box))])
    case Continue(_, j) =>
      var l := pr.box.large[j].send;
      var at, length := l.addr + R.limit, Min(R.limit, l.size - R.limit);
      System(s.procs[p := pr.(box := Continued(pr.box, j, R.limit))],
             Extend(s.wire, p, l.dst, l.tag, DataOf(R, p, l)[at..at + length]))
    case Dequeue(_) => s.(procs := s.procs[p := pr.(box := Dequeued(pr.box))])
    case Receive(_, src, tag) =>
      System(s.procs[p := pr.(box := Received(pr.box, tag, s.wire(src, p, tag)[0], R.limit))],
             Shorten(s.wire, src, p, tag))
    case Finish(_) => s.(procs := s.procs[p := pr.(stage := Draining)])
    case Drain(_) => s.(procs := s.procs[p := pr.(stage := InBarrier)])
    case Leave(_) => s.(procs := s.procs[p := pr.(stage := Done)])
  }

  ghost predicate IsStep<B(!new)>(R: Round<B>, s: System<B>, t: System<B>) {
    exists e :: Enabled(R, s, e) && Safe(R, s, e) && t == Apply(R, s, e)
  }

  ghost predicate IsRun<B(!new)>(R: Round<B>, run: seq<System<B>>) {
    && run != [] && run[0] == Init(R)
    && forall i :: 0 <= i < |run| - 1 ==> IsStep(R, run[i], run[i + 1])
  }

  // ---------------------------------------------------------------- the invariant

  ghost function SentTo<B>(s: System<B>, q: nat, dst: nat, tag: nat): nat
    requires q < |s.procs|
  {
    if (dst, tag) in s.procs[q].box.sent then s.procs[q].box.sent[(dst, tag)] else 0
  }

  ghost function TakenFrom<B>(s: System<B>, dst: nat, tag: nat): nat {
    if dst < |s.procs| && tag < |s.procs[dst].box.recvs| then s.procs[dst].box.recvs[tag].taken else 0
  }

  ghost predicate HasLarge(large: seq<Entry>, dst: nat, tag: nat) {
    exists j: nat :: j < |large| && large[j].send.dst == dst && large[j].send.tag == tag
  }

  /** On the wire are exactly the fragments of a send that are started and not yet received, in order. */
  ghost predicate SendFits<B>(R: Round<B>, s: System<B>, q: nat, k: nat)
    requires |s.procs| == R.n && q < R.n && k < |R.sends(q)|
  {
    var d, pr := R.sends(q)[k], s.procs[q];
    var a, b := SentTo(s, q, d.dst, d.tag), TakenFrom(s, d.dst, d.tag);
    && b <= a && Needed(|d.data|, R.limit, a)
    && s.wire(q, d.dst, d.tag) == Pieces(d.data, R.limit, b, a)
    && (if k < pr.posted then
          && (d.dst, d.tag) in pr.box.sent
          && (HasLarge(pr.box.large, d.dst, d.tag) || Cut(|d.data|, R.limit, a) == |d.data|)
        else a == 0 && !HasLarge(pr.box.large, d.dst, d.tag))
  }

  ghost predicate LargeOf<B>(R: Round<B>, s: System<B>, q: nat, l: Large, active: bool, k: nat)
    requires |s.procs| == R.n && q < R.n
  {
    Addresses(R, q, k, l.dst, l.tag) && k < s.procs[q].posted
    && var total, a := |R.sends(q)[k].data|, SentTo(s, q, l.dst, l.tag);
       && l.addr + l.size == total
       && if active then l.size > R.limit && Cut(total, R.limit, a) == l.addr + R.limit
          else Cut(total, R.limit, a) == total
  }

  /** A long send records the fragment that was started last. */
  ghost predicate LargeFits<B>(R: Round<B>, s: System<B>, q: nat, j: nat)
    requires |s.procs| == R.n && q < R.n && j < |s.procs[q].box.large|
  {
    var Entry(l, r) := s.procs[q].box.large[j];
    exists k: nat :: LargeOf(R, s, q, l, r.Active?, k)
  }

  ghost predicate OneLargeEach(large: seq<Entry>) {
    forall i: nat, j: nat :: i < j < |large| ==>
                               large[i].send.dst != large[j].send.dst || large[i].send.tag != large[j].send.tag
  }

  /** The buffer holds what the sender has, up to the end of the last fragment received. */
  ghost predicate Holds<B>(R: Round<B>, q: nat, k: nat, buffer: seq<B>, upto: nat)
    requires q < R.n && k < |R.sends(q)|
  {
    upto <= |buffer| && upto <= |R.sends(q)[k].data| && buffer[..upto] == R.sends(q)[k].data[..upto]
  }

  ghost predicate RecvFits<B(!new)>(R: Round<B>, s: System<B>, p: nat, tag: nat)
    requires |s.procs| == R.n && p < R.n && tag < |s.procs[p].box.recvs| && tag < |R.recvs(p)|
  {
    var r, total := s.procs[p].box.recvs[tag], |R.recvs(p)[tag]|;
    var upto := Cut(total, R.limit, r.taken);
    && |r.buffer| == total && Needed(total, R.limit, r.taken)
    && (upto < total ==> r.pos == upto && r.size == total - upto)
    && (s.procs[p].stage.Starting? ==> r.taken == 0)
    && forall q: nat, k: nat :: Addresses(R, q, k, p, tag) ==> Holds(R, q, k, r.buffer, upto)
  }

  ghost predicate IsOpen<B>(R: Round<B>, p: nat, recvs: seq<Recv<B>>, tag: nat) {
    && tag < |recvs| && tag < |R.recvs(p)|
    && Cut(|R.recvs(p)[tag]|, R.limit, recvs[tag].taken) < |R.recvs(p)[tag]|
  }

  /** How many of the first `m` receives are not finished. */
  ghost function Open<B>(R: Round<B>, p: nat, recvs: seq<Recv<B>>, m: nat): nat {
    if m == 0 then 0 else Open(R, p, recvs, m - 1) + if IsOpen(R, p, recvs, m - 1) then 1 else 0
  }

  ghost predicate Counts<B>(R: Round<B>, p: nat, pr: Process<B>) {
    var b := pr.box;
    && pr.posted <= |R.sends(p)| && |b.recvs| <= |R.recvs(p)|
    && (if pr.stage.Starting? then b.empties + Open(R, p, b.recvs, |b.recvs|) == |b.recvs|
        else pr.posted == |R.sends(p)| && |b.recvs| == |R.recvs(p)| && b.waiting == Open(R, p, b.recvs, |b.recvs|))
    && (pr.stage.Draining? || pr.stage.InBarrier? || pr.stage.Done? ==> b.waiting == 0 && b.large == [])
  }

  ghost predicate SendsFit<B>(R: Round<B>, s: System<B>, q: nat)
    requires |s.procs| == R.n && q < R.n
  {
    forall k: nat :: k < |R.sends(q)| ==> SendFits(R, s, q, k)
  }

  ghost predicate LargesFit<B>(R: Round<B>, s: System<B>, q: nat)
    requires |s.procs| == R.n && q < R.n
  {
    OneLargeEach(s.procs[q].box.large) && forall j: nat :: j < |s.procs[q].box.large| ==> LargeFits(R, s, q, j)
  }

  ghost predicate RecvsFit<B(!new)>(R: Round<B>, s: System<B>, p: nat)
    requires |s.procs| == R.n && p < R.n && |s.procs[p].box.recvs| <= |R.recvs(p)|
  {
    forall tag: nat :: tag < |s.procs[p].box.recvs| ==> RecvFits(R, s, p, tag)
  }

  ghost predicate ProcessFits<B(!new)>(R: Round<B>, s: System<B>, p: nat)
    requires |s.procs| == R.n && p < R.n
  {
    Counts(R, p, s.procs[p]) && SendsFit(R, s, p) && LargesFit(R, s, p) && RecvsFit(R, s, p)
  }

  ghost predicate WireFits<B>(R: Round<B>, s: System<B>, q: nat, dst: nat, tag: nat) {
    s.wire(q, dst, tag) != [] ==> exists k: nat :: Addresses(R, q, k, dst, tag)
  }

  ghost predicate Inv<B(!new)>(R: Round<B>, s: System<B>) {
    && |s.procs| == R.n
    && (forall p: nat :: p < R.n ==> ProcessFits(R, s, p))
    && (forall q: nat, dst: nat, tag: nat :: WireFits(R, s, q, dst, tag))
    && forall p: nat, q: nat :: p < R.n && q < R.n && s.procs[p].stage.Done? ==> Entered(s, q)
  }

  lemma InitFits<B(!new)>(R: Round<B>)
    ensures Inv(R, Init(R))
  {
  }

  // ---------------------------------------------------------------- frames

  lemma SendStays<B>(R: Round<B>, s: System<B>, t: System<B>, q: nat, k: nat)
    requires |s.procs| == |t.procs| == R.n && q < R.n && k < |R.sends(q)| && SendFits(R, s, q, k)
    requires var d := R.sends(q)[k];
             && t.wire(q, d.dst, d.tag) == s.wire(q, d.dst, d.tag)
             && TakenFrom(t, d.dst, d.tag) == TakenFrom(s, d.dst, d.tag)
             && SentTo(t, q, d.dst, d.tag) == SentTo(s, q, d.dst, d.tag)
             && ((d.dst, d.tag) in s.procs[q].box.sent ==> (d.dst, d.tag) in t.procs[q].box.sent)
             && (k < t.procs[q].posted <==> k < s.procs[q].posted)
             && (HasLarge(t.procs[q].box.large, d.dst, d.tag) <==> HasLarge(s.procs[q].box.large, d.dst, d.tag))
    ensures SendFits(R, t, q, k)
  {
  }

  lemma LargeStays<B>(R: Round<B>, s: System<B>, t: System<B>, q: nat, i: nat, j: nat)
    requires |s.procs| == |t.procs| == R.n && q < R.n && i < |s.procs[q].box.large| && j < |t.procs[q].box.large|
    requires LargeFits(R, s, q, i) && t.procs[q].box.large[j] == s.procs[q].box.large[i]
    requires var l := s.procs[q].box.large[i].send; SentTo(t, q, l.dst, l.tag) == SentTo(s, q, l.dst, l.tag)
    requires s.procs[q].posted <= t.procs[q].posted
    ensures LargeFits(R, t, q, j)
  {
    var Entry(l, r) := s.procs[q].box.large[i];
    var k: nat :| LargeOf(R, s, q, l, r.Active?, k);
    assert LargeOf(R, t, q, l, r.Active?, k);
  }

  /** A process whose own state, sends and receives a step does not touch. */
  lemma ProcessStays<B(!new)>(R: Round<B>, s: System<B>, t: System<B>, q: nat)
    requires |s.procs| == |t.procs| == R.n && q < R.n && ProcessFits(R, s, q) && t.procs[q] == s.procs[q]
    requires forall dst: nat, tag: nat :: t.wire(q, dst, tag) == s.wire(q, dst, tag)
    requires forall dst: nat, tag: nat :: TakenFrom(t, dst, tag) == TakenFrom(s, dst, tag)
    ensures ProcessFits(R, t, q)
  {
    forall k: nat | k < |R.sends(q)| ensures SendFits(R, t, q, k) {
      SendStays(R, s, t, q, k);
    }
    forall j: nat | j < |t.procs[q].box.large| ensures LargeFits(R, t, q, j) {
      LargeStays(R, s, t, q, j, j);
    }
    forall tag: nat | tag < |t.procs[q].box.recvs| ensures RecvFits(R, t, q, tag) {
      assert RecvFits(R, s, q, tag);
    }
  }

  /** A step of p that receives nothing and changes only wires from p. */
  lemma OthersFit<B(!new)>(R: Round<B>, s: System<B>, t: System<B>, p: nat)
    requires |s.procs| == |t.procs| == R.n && p < R.n && Inv(R, s)
    requires forall q: nat :: q < R.n && q != p ==> t.procs[q] == s.procs[q]
    requires forall q: nat, dst: nat, tag: nat :: q != p ==> t.wire(q, dst, tag) == s.wire(q, dst, tag)
    requires forall dst: nat, tag: nat :: TakenFrom(t, dst, tag) == TakenFrom(s, dst, tag)
    requires ProcessFits(R, t, p) && forall dst: nat, tag: nat :: WireFits(R, t, p, dst, tag)
    requires t.procs[p].stage.Done? == s.procs[p].stage.Done? && (Entered(s, p) ==> Entered(t, p))
    ensures Inv(R, t)
  {
    forall q: nat | q < R.n ensures ProcessFits(R, t, q) {
      if q != p {
        ProcessStays(R, s, t, q);
      }
    }
    forall q: nat, dst: nat, tag: nat ensures WireFits(R, t, q, dst, tag) {
      if q != p {
        assert WireFits(R, s, q, dst, tag);
      }
    }
    forall a: nat, q: nat | a < R.n && q < R.n && t.procs[a].stage.Done? ensures Entered(t, q) {
      assert Entered(s, q);
    }
  }

  // ---------------------------------------------------------------- sending

  lemma KeysDiffer<B(!new)>(R: Round<B>, q: nat, k: nat, q': nat, k': nat)
    requires Matched(R) && q < R.n && k < |R.sends(q)| && q' < R.n && k' < |R.sends(q')|
    requires R.sends(q)[k].dst == R.sends(q')[k'].dst && R.sends(q)[k].tag == R.sends(q')[k'].tag
    ensures q == q' && k == k'
  {
    var d := R.sends(q)[k];
    assert Addresses(R, q, k, d.dst, d.tag) && Addresses(R, q', k', d.dst, d.tag);
  }

  lemma PiecesGrow<B>(data: seq<B>, limit: nat, from: nat, upto: nat)
    requires from <= upto
    ensures Pieces(data, limit, from, upto) + [Piece(data, limit, upto)] == Pieces(data, limit, from, upto + 1)
  {
  }

  lemma PiecesShrink<B>(data: seq<B>, limit: nat, from: nat, upto: nat)
    requires from < upto
    ensures Pieces(data, limit, from, upto)[1..] == Pieces(data, limit, from + 1, upto)
    ensures Pieces(data, limit, from, upto)[0] == Piece(data, limit, from)
  {
  }

  /** The send that is started now. */
  lemma IsentFits<B(!new)>(R: Round<B>, s: System<B>, p: nat)
    requires Matched(R) && Inv(R, s) && Enabled(R, s, Isend(p))
    ensures SendFits(R, Apply(R, s, Isend(p)), p, s.procs[p].posted)
  {
    var t, m := Apply(R, s, Isend(p)), s.procs[p].posted;
    var d := R.sends(p)[m];
    assert ProcessFits(R, s, p);
    assert SendFits(R, s, p, m);
    assert Cut(|d.data|, R.limit, 1) == Min(R.limit, |d.data|);
    if |d.data| > R.limit {
      var large := t.procs[p].box.large;
      assert large[|large| - 1].send.dst == d.dst && large[|large| - 1].send.tag == d.tag;
    }
  }

  lemma IsendKeeps<B(!new)>(R: Round<B>, s: System<B>, p: nat)
    requires Matched(R) && Inv(R, s) && Enabled(R, s, Isend(p))
    ensures Inv(R, Apply(R, s, Isend(p)))
  {
    var t, m, large := Apply(R, s, Isend(p)), s.procs[p].posted, s.procs[p].box.large;
    var d := R.sends(p)[m];
    assert ProcessFits(R, s, p);
    assert SendFits(R, s, p, m);
    assert SendsFit(R, t, p) by {
      forall k: nat | k < |R.sends(p)| ensures SendFits(R, t, p, k) {
        if k == m {
          IsentFits(R, s, p);
        } else {
          assert SendFits(R, s, p, k);
          IsendOther(R, s, p, k);
        }
      }
    }
    assert LargesFit(R, t, p) by {
      forall j: nat | j < |t.procs[p].box.large| ensures LargeFits(R, t, p, j) {
        if j < |large| {
          LargeStays(R, s, t, p, j, j);
        } else {
          assert Cut(|d.data|, R.limit, 1) == R.limit;
          assert Addresses(R, p, m, d.dst, d.tag);
          var Entry(l, r) := t.procs[p].box.large[j];
          assert LargeOf(R, t, p, l, r.Active?, m);
        }
      }
    }
    assert RecvsFit(R, t, p) by {
      forall tag: nat | tag < |t.procs[p].box.recvs| ensures RecvFits(R, t, p, tag) {
        assert RecvFits(R, s, p, tag);
      }
    }
    forall dst: nat, tag: nat ensures WireFits(R, t, p, dst, tag) {
      assert WireFits(R, s, p, dst, tag);
      assert Addresses(R, p, m, d.dst, d.tag);
    }
    OthersFit(R, s, t, p);
  }

  lemma IsendOther<B(!new)>(R: Round<B>, s: System<B>, p: nat, k: nat)
    requires Matched(R) && Inv(R, s) && Enabled(R, s, Isend(p)) && k < |R.sends(p)| && k != s.procs[p].posted
    requires SendFits(R, s, p, k)
    ensures SendFits(R, Apply(R, s, Isend(p)), p, k)
  {
    var t, m, d := Apply(R, s, Isend(p)), s.procs[p].posted, R.sends(p)[k];
    if d.dst == R.sends(p)[m].dst && d.tag == R.sends(p)[m].tag {
      KeysDiffer(R, p, k, p, m);
    } else {
      var was, now := s.procs[p].box.large, t.procs[p].box.large;
      if j: nat :| j < |was| && was[j].send.dst == d.dst && was[j].send.tag == d.tag {
        assert now[j] == was[j];
      }
      SendStays(R, s, t, p, k);
    }
  }

  /** A long send with an active request has exactly the fragments before `addr + limit` out. */
  lemma ActiveLarge<B(!new)>(R: Round<B>, s: System<B>, p: nat, j: nat) returns (k: nat)
    requires Matched(R) && Inv(R, s) && Enabled(R, s, Continue(p, j))
    ensures Safe(R, s, Continue(p, j))
    ensures var l := s.procs[p].box.large[j].send;
            && LargeOf(R, s, p, l, true, k) && SendFits(R, s, p, k) && DataOf(R, p, l) == R.sends(p)[k].data
            && var d, at := R.sends(p)[k].data, l.addr + R.limit;
               d[at..at + Min(R.limit, l.size - R.limit)] == Piece(d, R.limit, SentTo(s, p, l.dst, l.tag))
  {
    assert ProcessFits(R, s, p);
    assert LargeFits(R, s, p, j);
    var Entry(l, r) := s.procs[p].box.large[j];
    k :| LargeOf(R, s, p, l, r.Active?, k);
    assert SendFits(R, s, p, k);
    assert Addresses(R, p, k, l.dst, l.tag);
    var k': nat :| Addresses(R, p, k', l.dst, l.tag) && DataOf(R, p, l) == R.sends(p)[k'].data;
    KeysDiffer(R, p, k, p, k');
  }

  lemma SameLargeKeys<B>(R: Round<B>, s: System<B>, p: nat, j: nat, dst: nat, tag: nat)
    requires Enabled(R, s, Continue(p, j)) && Safe(R, s, Continue(p, j))
    ensures HasLarge(Apply(R, s, Continue(p, j)).procs[p].box.large, dst, tag)
            <==> HasLarge(s.procs[p].box.large, dst, tag)
  {
    var was, now := s.procs[p].box.large, Apply(R, s, Continue(p, j)).procs[p].box.large;
    assert forall i: nat :: i < |was| ==> now[i].send.dst == was[i].send.dst && now[i].send.tag == was[i].send.tag;
  }

  lemma ContinuedOwn<B(!new)>(R: Round<B>, s: System<B>, p: nat, j: nat, k: nat)
    requires Matched(R) && Inv(R, s) && Enabled(R, s, Continue(p, j)) && Safe(R, s, Continue(p, j))
    requires var l := s.procs[p].box.large[j].send; Addresses(R, p, k, l.dst, l.tag)
    ensures SendFits(R, Apply(R, s, Continue(p, j)), p, k)
  {
    var d := R.sends(p)[k];
    var own := ActiveLarge(R, s, p, j);
    KeysDiffer(R, p, k, p, own);
    var t, a, b := Apply(R, s, Continue(p, j)), SentTo(s, p, d.dst, d.tag), TakenFrom(s, d.dst, d.tag);
    PiecesGrow(d.data, R.limit, b, a);
    assert SentTo(t, p, d.dst, d.tag) == a + 1 && TakenFrom(t, d.dst, d.tag) == b;
    assert t.wire(p, d.dst, d.tag) == Pieces(d.data, R.limit, b, a + 1);
    assert Needed(|d.data|, R.limit, a + 1);
    assert HasLarge(s.procs[p].box.large, d.dst, d.tag);
    SameLargeKeys(R, s, p, j, d.dst, d.tag);
  }

  lemma ContinuedFits<B(!new)>(R: Round<B>, s: System<B>, p: nat, j: nat, k: nat)
    requires Matched(R) && Inv(R, s) && Enabled(R, s, Continue(p, j)) && Safe(R, s, Continue(p, j))
    requires k < |R.sends(p)|
    ensures SendFits(R, Apply(R, s, Continue(p, j)), p, k)
  {
    var l, d := s.procs[p].box.large[j].send, R.sends(p)[k];
    if d.dst == l.dst && d.tag == l.tag {
      ContinuedOwn(R, s, p, j, k);
    } else {
      SameLargeKeys(R, s, p, j, d.dst, d.tag);
      assert ProcessFits(R, s, p) && SendFits(R, s, p, k);
      SendStays(R, s, Apply(R, s, Continue(p, j)), p, k);
    }
  }

  lemma ContinuedLarges<B(!new)>(R: Round<B>, s: System<B>, p: nat, j: nat)
    requires Matched(R) && Inv(R, s) && Enabled(R, s, Continue(p, j)) && Safe(R, s, Continue(p, j))
    ensures LargesFit(R, Apply(R, s, Continue(p, j)), p)
  {
    var t, was := Apply(R, s, Continue(p, j)), s.procs[p].box.large;
    var now := t.procs[p].box.large;
    assert ProcessFits(R, s, p);
    var own := ActiveLarge(R, s, p, j);
    forall i: nat | i < |now| ensures LargeFits(R, t, p, i) {
      if i == j {
        var Entry(l, r) := now[j];
        assert LargeOf(R, t, p, l, r.Active?, own);
      } else {
        LargeStays(R, s, t, p, i, i);
      }
    }
    assert forall i: nat :: i < |was| ==> now[i].send.dst == was[i].send.dst && now[i].send.tag == was[i].send.tag;
  }

  lemma ContinueKeeps<B(!new)>(R: Round<B>, s: System<B>, p: nat, j: nat)
    requires Matched(R) && Inv(R, s) && Enabled(R, s, Continue(p, j)) && Safe(R, s, Continue(p, j))
    ensures Inv(R, Apply(R, s, Continue(p, j)))
  {
    var t := Apply(R, s, Continue(p, j));
    assert ProcessFits(R, s, p);
    ContinuedLarges(R, s, p, j);
    forall k: nat | k < |R.sends(p)| ensures SendFits(R, t, p, k) {
      ContinuedFits(R, s, p, j, k);
    }
    forall tag: nat | tag < |t.procs[p].box.recvs| ensures RecvFits(R, t, p, tag) {
      assert RecvFits(R, s, p, tag);
    }
    forall dst: nat, tag: nat ensures WireFits(R, t, p, dst, tag) {
      assert WireFits(R, s, p, dst, tag);
      var own := ActiveLarge(R, s, p, j);
      assert Addresses(R, p, own, s.procs[p].box.large[j].send.dst, s.procs[p].box.large[j].send.tag);
    }
    OthersFit(R, s, t, p);
  }

  // ---------------------------------------------------------------- dequeueing

  lemma {:induction false} SweepKeepsOneEach(large: seq<Entry>, i: nat)
    requires i <= |large| && OneLargeEach(large)
    ensures OneLargeEach(SweepDown(large, IsNull, i))
    decreases i
  {
    if i > 0 {
      if IsNull(large[i - 1]) {
        SweepKeepsOneEach(DropAt(large, i - 1), i - 1);
      } else {
        SweepKeepsOneEach(large, i - 1);
      }
    }
  }

  lemma DequeuedEntries<B>(b: Box<B>)
    ensures forall x :: x in Dequeued(b).large <==> x in b.large && !IsNull(x)
  {
    DequeueDropsNull(b);
    forall x ensures x in Dequeued(b).large <==> x in b.large && !IsNull(x) {
      assert x in Dequeued(b).large <==> multiset(Dequeued(b).large)[x] > 0;
      assert x in b.large <==> multiset(b.large)[x] > 0;
    }
  }

  lemma DequeuedFits<B(!new)>(R: Round<B>, s: System<B>, p: nat, k: nat)
    requires Matched(R) && Inv(R, s) && Enabled(R, s, Dequeue(p)) && k < |R.sends(p)|
    ensures SendFits(R, Apply(R, s, Dequeue(p)), p, k)
  {
    var t, d, was := Apply(R, s, Dequeue(p)), R.sends(p)[k], s.procs[p].box.large;
    var now := t.procs[p].box.large;
    assert ProcessFits(R, s, p);
    assert SendFits(R, s, p, k);
    DequeuedEntries(s.procs[p].box);
    if j: nat :| j < |now| && now[j].send.dst == d.dst && now[j].send.tag == d.tag {
      assert now[j] in was;
    } else if i: nat :| i < |was| && was[i].send.dst == d.dst && was[i].send.tag == d.tag {
      assert IsNull(was[i]) by {
        assert was[i] in now ==> HasLarge(now, d.dst, d.tag);
      }
      assert LargeFits(R, s, p, i);
      var Entry(l, r) := was[i];
      var k' :| LargeOf(R, s, p, l, r.Active?, k');
      KeysDiffer(R, p, k, p, k');
    }
  }

  lemma DequeueKeeps<B(!new)>(R: Round<B>, s: System<B>, p: nat)
    requires Matched(R) && Inv(R, s) && Enabled(R, s, Dequeue(p))
    ensures Inv(R, Apply(R, s, Dequeue(p)))
  {
    var t, was := Apply(R, s, Dequeue(p)), s.procs[p].box.large;
    var now := t.procs[p].box.large;
    assert ProcessFits(R, s, p);
    forall k: nat | k < |R.sends(p)| ensures SendFits(R, t, p, k) {
      DequeuedFits(R, s, p, k);
    }
    DequeuedEntries(s.procs[p].box);
    SweepKeepsOneEach(was, |was|);
    forall j: nat | j < |now| ensures LargeFits(R, t, p, j) {
      assert now[j] in was;
      var i: nat :| i < |was| && was[i] == now[j];
      LargeStays(R, s, t, p, i, j);
    }
    forall tag: nat | tag < |t.procs[p].box.recvs| ensures RecvFits(R, t, p, tag) {
      assert RecvFits(R, s, p, tag);
    }
    forall dst: nat, tag: nat ensures WireFits(R, t, p, dst, tag) {
      assert WireFits(R, s, p, dst, tag);
    }
    OthersFit(R, s, t, p);
  }

  // ---------------------------------------------------------------- starting receives, stages

  lemma {:induction false} OpenStays<B>(R: Round<B>, p: nat, recvs: seq<Recv<B>>, recvs': seq<Recv<B>>, m: nat)
    requires m <= |recvs| && m <= |recvs'| && forall i: nat :: i < m ==> recvs'[i].taken == recvs[i].taken
    ensures Open(R, p, recvs', m) == Open(R, p, recvs, m)
  {
    if m > 0 {
      OpenStays(R, p, recvs, recvs', m - 1);
    }
  }

  /** A step of p that touches neither sends nor wires. */
  lemma OwnSendsStay<B(!new)>(R: Round<B>, s: System<B>, t: System<B>, p: nat)
    requires |s.procs| == |t.procs| == R.n && p < R.n && SendsFit(R, s, p) && LargesFit(R, s, p) && t.wire == s.wire
    requires t.procs[p].posted == s.procs[p].posted && t.procs[p].box.sent == s.procs[p].box.sent
    requires t.procs[p].box.large == s.procs[p].box.large
    requires forall dst: nat, tag: nat :: TakenFrom(t, dst, tag) == TakenFrom(s, dst, tag)
    ensures SendsFit(R, t, p) && LargesFit(R, t, p)
  {
    forall k: nat | k < |R.sends(p)| ensures SendFits(R, t, p, k) {
      SendStays(R, s, t, p, k);
    }
    forall j: nat | j < |t.procs[p].box.large| ensures LargeFits(R, t, p, j) {
      LargeStays(R, s, t, p, j, j);
    }
  }

  lemma IrecvKeeps<B(!new)>(R: Round<B>, s: System<B>, p: nat)
    requires Matched(R) && Inv(R, s) && Enabled(R, s, Irecv(p))
    ensures Inv(R, Apply(R, s, Irecv(p)))
  {
    var t, m := Apply(R, s, Irecv(p)), |s.procs[p].box.recvs|;
    assert ProcessFits(R, s, p);
    OwnSendsStay(R, s, t, p);
    OpenStays(R, p, s.procs[p].box.recvs, t.procs[p].box.recvs, m);
    forall tag: nat | tag < |t.procs[p].box.recvs| ensures RecvFits(R, t, p, tag) {
      if tag < m {
        assert RecvFits(R, s, p, tag);
      }
    }
    forall dst: nat, tag: nat ensures WireFits(R, t, p, dst, tag) {
      assert WireFits(R, s, p, dst, tag);
    }
    OthersFit(R, s, t, p);
  }

  lemma StageKeeps<B(!new)>(R: Round<B>, s: System<B>, e: Event)
    requires Matched(R) && Inv(R, s) && Enabled(R, s, e) && Safe(R, s, e) && (e.EnterLoop? || e.Finish? || e.Drain?)
    ensures Inv(R, Apply(R, s, e))
  {
    var t, p := Apply(R, s, e), e.p;
    assert ProcessFits(R, s, p);
    OwnSendsStay(R, s, t, p);
    forall tag: nat | tag < |t.procs[p].box.recvs| ensures RecvFits(R, t, p, tag) {
      assert RecvFits(R, s, p, tag);
    }
    forall dst: nat, tag: nat ensures WireFits(R, t, p, dst, tag) {
      assert WireFits(R, s, p, dst, tag);
    }
    OthersFit(R, s, t, p);
  }

  lemma LeaveKeeps<B(!new)>(R: Round<B>, s: System<B>, p: nat)
    requires Matched(R) && Inv(R, s) && Enabled(R, s, Leave(p))
    ensures Inv(R, Apply(R, s, Leave(p)))
  {
    var t := Apply(R, s, Leave(p));
    forall q: nat | q < R.n ensures ProcessFits(R, t, q) {
      assert ProcessFits(R, s, q);
      OwnSendsStay(R, s, t, q);
      forall tag: nat | tag < |t.procs[q].box.recvs| ensures RecvFits(R, t, q, tag) {
        assert RecvFits(R, s, q, tag);
      }
    }
    forall q: nat, dst: nat, tag: nat ensures WireFits(R, t, q, dst, tag) {
      assert WireFits(R, s, q, dst, tag);
    }
    forall q: nat | q < R.n ensures Entered(t, q) {
      assert Entered(s, q);
    }
  }

  // ---------------------------------------------------------------- receiving

  lemma {:induction false} OpenAtLeastOne<B>(R: Round<B>, p: nat, recvs: seq<Recv<B>>, m: nat, tag: nat)
    requires tag < m && IsOpen(R, p, recvs, tag)
    ensures Open(R, p, recvs, m) > 0
  {
    if tag < m - 1 {
      OpenAtLeastOne(R, p, recvs, m - 1, tag);
    }
  }

  /** Finishing one receive leaves one less open; advancing one leaves as many. */
  lemma {:induction false} OpenAfter<B>(
    R: Round<B>, p: nat, recvs: seq<Recv<B>>, recvs': seq<Recv<B>>, m: nat, tag: nat)
    requires |recvs'| == |recvs| && m <= |recvs| && IsOpen(R, p, recvs, tag)
    requires forall i: nat :: i < m && i != tag ==> recvs'[i].taken == recvs[i].taken
    ensures Open(R, p, recvs', m) + (if tag < m && !IsOpen(R, p, recvs', tag) then 1 else 0) == Open(R, p, recvs, m)
  {
    if m > 0 {
      OpenAfter(R, p, recvs, recvs', m - 1, tag);
    }
  }

  /** What is on the wire is the next fragment of the message the receive is for. */
  lemma HeadIsNext<B(!new)>(R: Round<B>, s: System<B>, p: nat, src: nat, tag: nat) returns (k: nat)
    requires Matched(R) && Inv(R, s) && Enabled(R, s, Receive(p, src, tag))
    ensures Addresses(R, src, k, p, tag) && SendFits(R, s, src, k)
    ensures tag < |R.recvs(p)| && tag < |s.procs[p].box.recvs| && |R.recvs(p)[tag]| == |R.sends(src)[k].data|
    ensures TakenFrom(s, p, tag) < SentTo(s, src, p, tag)
    ensures s.wire(src, p, tag)[0] == Piece(R.sends(src)[k].data, R.limit, s.procs[p].box.recvs[tag].taken)
  {
    assert WireFits(R, s, src, p, tag);
    k :| Addresses(R, src, k, p, tag);
    assert ProcessFits(R, s, p) && ProcessFits(R, s, src);
    assert SendFits(R, s, src, k);
  }

  lemma HeadFits<B(!new)>(R: Round<B>, s: System<B>, p: nat, src: nat, tag: nat) returns (k: nat)
    requires Matched(R) && Inv(R, s) && Enabled(R, s, Receive(p, src, tag))
    ensures Safe(R, s, Receive(p, src, tag)) && Addresses(R, src, k, p, tag) && SendFits(R, s, src, k)
    ensures tag < |R.recvs(p)| && RecvFits(R, s, p, tag) && IsOpen(R, p, s.procs[p].box.recvs, tag)
    ensures s.wire(src, p, tag)[0] == Piece(R.sends(src)[k].data, R.limit, s.procs[p].box.recvs[tag].taken)
    ensures TakenFrom(s, p, tag) < SentTo(s, src, p, tag)
  {
    k := HeadIsNext(R, s, p, src, tag);
    assert ProcessFits(R, s, p);
    assert RecvFits(R, s, p, tag);
    var total, b := |R.recvs(p)[tag]|, s.procs[p].box.recvs[tag].taken;
    CutsAscend(total, R.limit, b, SentTo(s, src, p, tag) - 1);
    assert Cut(total, R.limit, b) < total;
    OpenAtLeastOne(R, p, s.procs[p].box.recvs, |s.procs[p].box.recvs|, tag);
  }

  lemma ReceivedSend<B(!new)>(R: Round<B>, s: System<B>, p: nat, src: nat, tag: nat, q: nat, k: nat)
    requires Matched(R) && Inv(R, s) && Enabled(R, s, Receive(p, src, tag)) && Safe(R, s, Receive(p, src, tag))
    requires q < R.n && k < |R.sends(q)|
    ensures SendFits(R, Apply(R, s, Receive(p, src, tag)), q, k)
  {
    var t, d := Apply(R, s, Receive(p, src, tag)), R.sends(q)[k];
    var own := HeadFits(R, s, p, src, tag);
    assert ProcessFits(R, s, q) && SendFits(R, s, q, k);
    if d.dst == p && d.tag == tag {
      KeysDiffer(R, q, k, src, own);
      PiecesShrink(d.data, R.limit, TakenFrom(s, p, tag), SentTo(s, src, p, tag));
    } else {
      SendStays(R, s, t, q, k);
    }
  }

  lemma PrefixGrows<B>(a: seq<B>, b: seq<B>, i: nat, j: nat)
    requires i <= j <= |a| && j <= |b| && a[..i] == b[..i] && a[i..j] == b[i..j]
    ensures a[..j] == b[..j]
  {
    assert a[..j] == a[..i] + a[i..j];
    assert b[..j] == b[..i] + b[i..j];
  }

  lemma ReceivedRecv<B(!new)>(R: Round<B>, s: System<B>, p: nat, src: nat, tag: nat)
    requires Matched(R) && Inv(R, s) && Enabled(R, s, Receive(p, src, tag)) && Safe(R, s, Receive(p, src, tag))
    ensures tag < |R.recvs(p)| && RecvFits(R, Apply(R, s, Receive(p, src, tag)), p, tag)
  {
    var own := HeadFits(R, s, p, src, tag);
    var r, r' := s.procs[p].box.recvs[tag], Apply(R, s, Receive(p, src, tag)).procs[p].box.recvs[tag];
    var d, total := R.sends(src)[own].data, |R.recvs(p)[tag]|;
    var upto, upto' := Cut(total, R.limit, r.taken), Cut(total, R.limit, r'.taken);
    assert upto' == upto + Min(R.limit, total - upto);
    assert Holds(R, src, own, r.buffer, upto);
    PrefixGrows(r'.buffer, d, upto, upto');
    assert Holds(R, src, own, r'.buffer, upto');
    forall q: nat, k: nat | Addresses(R, q, k, p, tag) ensures Holds(R, q, k, r'.buffer, upto') {
      KeysDiffer(R, q, k, src, own);
    }
  }

  lemma ReceivedCounts<B(!new)>(R: Round<B>, s: System<B>, p: nat, src: nat, tag: nat)
    requires Matched(R) && Inv(R, s) && Enabled(R, s, Receive(p, src, tag)) && Safe(R, s, Receive(p, src, tag))
    ensures Counts(R, p, Apply(R, s, Receive(p, src, tag)).procs[p])
  {
    var own := HeadFits(R, s, p, src, tag);
    var recvs, recvs' := s.procs[p].box.recvs, Apply(R, s, Receive(p, src, tag)).procs[p].box.recvs;
    assert ProcessFits(R, s, p);
    var total := |R.recvs(p)[tag]|;
    var upto := Cut(total, R.limit, recvs[tag].taken);
    assert Cut(total, R.limit, recvs'[tag].taken) == upto + Min(R.limit, total - upto);
    OpenAfter(R, p, recvs, recvs', |recvs|, tag);
  }

  lemma ReceiveKeeps<B(!new)>(R: Round<B>, s: System<B>, p: nat, src: nat, tag: nat)
    requires Matched(R) && Inv(R, s) && Enabled(R, s, Receive(p, src, tag)) && Safe(R, s, Receive(p, src, tag))
    ensures Inv(R, Apply(R, s, Receive(p, src, tag)))
  {
    var t := Apply(R, s, Receive(p, src, tag));
    forall q: nat | q < R.n ensures ProcessFits(R, t, q) {
      assert ProcessFits(R, s, q);
      forall k: nat | k < |R.sends(q)| ensures SendFits(R, t, q, k) {
        ReceivedSend(R, s, p, src, tag, q, k);
      }
      forall j: nat | j < |t.procs[q].box.large| ensures LargeFits(R, t, q, j) {
        LargeStays(R, s, t, q, j, j);
      }
      ReceivedCounts(R, s, p, src, tag);
      forall x: nat | x < |t.procs[q].box.recvs| ensures RecvFits(R, t, q, x) {
        if q == p && x == tag {
          ReceivedRecv(R, s, p, src, tag);
        } else {
          assert RecvFits(R, s, q, x);
        }
      }
    }
    forall q: nat, dst: nat, x: nat ensures WireFits(R, t, q, dst, x) {
      assert WireFits(R, s, q, dst, x);
    }
    forall a: nat, q: nat | a < R.n && q < R.n && t.procs[a].stage.Done? ensures Entered(t, q) {
      assert Entered(s, q);
    }
  }
}
