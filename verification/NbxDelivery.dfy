/** What a sparse all-to-all has delivered when a process leaves it: all bytes, in order, and nothing else. */
module NbxDelivery {
  import opened NbxSends
  import opened Nbx

  // ---------------------------------------------------------------- totals and contents

  ghost function Sum(n: nat, g: nat -> nat): nat {
    if n == 0 then 0 else Sum(n - 1, g) + g(n - 1)
  }

  lemma {:induction false} SumEqual(n: nat, g: nat -> nat, h: nat -> nat)
    requires forall i: nat :: i < n ==> g(i) == h(i)
    ensures Sum(n, g) == Sum(n, h)
  {
    if n > 0 {
      SumEqual(n - 1, g, h);
    }
  }

  lemma {:induction false} SumBelow(n: nat, g: nat -> nat, h: nat -> nat)
    requires forall i: nat :: i < n ==> g(i) <= h(i)
    ensures Sum(n, g) <= Sum(n, h)
  {
    if n > 0 {
      SumBelow(n - 1, g, h);
    }
  }

  lemma {:induction false} SumOneMore(n: nat, g: nat -> nat, h: nat -> nat, i: nat, d: nat)
    requires i < n && h(i) == g(i) + d && forall j: nat :: j < n && j != i ==> h(j) == g(j)
    ensures Sum(n, h) == Sum(n, g) + d
  {
    if i == n - 1 {
      SumEqual(n - 1, g, h);
    } else {
      SumOneMore(n - 1, g, h, i, d);
    }
  }

  ghost function FromSends(log: seq<Fragment>, src: nat): nat -> nat {
    (send: nat) => Delivered(log, src, send)
  }

  ghost function FromSources(P: Exchange, log: seq<Fragment>): nat -> nat {
    (src: nat) => Sum(|P.jobs(src)|, FromSends(log, src))
  }

  /** A log's bytes are those of all sends together. */
  lemma {:induction false} BytesByJob(P: Exchange, p: nat, log: seq<Fragment>)
    requires InOrder(P, p, log)
    ensures Bytes(log) == Sum(P.n, FromSources(P, log))
  {
    if log == [] {
      forall src: nat | src < P.n ensures FromSources(P, log)(src) == 0 {
        SumEqual(|P.jobs(src)|, FromSends(log, src), (x: nat) => 0);
        SumZero(|P.jobs(src)|);
      }
      SumEqual(P.n, FromSources(P, log), (x: nat) => 0);
      SumZero(P.n);
    } else {
      var front, f := log[..|log| - 1], log[|log| - 1];
      assert Continues(P, front, f);
      InOrderFront(P, p, log);
      BytesByJob(P, p, front);
      forall src: nat | src < P.n && src != f.src ensures FromSources(P, log)(src) == FromSources(P, front)(src) {
        SumEqual(|P.jobs(src)|, FromSends(log, src), FromSends(front, src));
      }
      SumOneMore(|P.jobs(f.src)|, FromSends(front, f.src), FromSends(log, f.src), f.send, f.len);
      SumOneMore(P.n, FromSources(P, front), FromSources(P, log), f.src, f.len);
    }
  }

  lemma {:induction false} SumZero(n: nat)
    ensures Sum(n, (x: nat) => 0) == 0
  {
    if n > 0 {
      SumZero(n - 1);
    }
  }

  lemma InOrderFront(P: Exchange, p: nat, log: seq<Fragment>)
    requires InOrder(P, p, log) && log != []
    ensures InOrder(P, p, log[..|log| - 1])
  {
    var front := log[..|log| - 1];
    forall i | 0 <= i < |front| ensures front[i].dst == p && Continues(P, front[..i], front[i]) {
      assert front[..i] == log[..i] && front[i] == log[i];
    }
  }

  /** The bytes of job (src, send) that process p should get. */
  ghost function Due(P: Exchange, p: nat, src: nat, send: nat): nat {
    if send < |P.jobs(src)| && P.jobs(src)[send].dst == p then P.jobs(src)[send].count else 0
  }

  ghost function DueSends(P: Exchange, p: nat, src: nat): nat -> nat {
    (send: nat) => Due(P, p, src, send)
  }

  ghost function DueSources(P: Exchange, p: nat): nat -> nat {
    (src: nat) => Sum(|P.jobs(src)|, DueSends(P, p, src))
  }

  /** The bytes all processes together send to p. */
  ghost function Owed(P: Exchange, p: nat): nat {
    Sum(P.n, DueSources(P, p))
  }

  lemma {:induction false} DeliveredIsDue(P: Exchange, p: nat, log: seq<Fragment>, src: nat, send: nat)
    requires InOrder(P, p, log)
    ensures Delivered(log, src, send) <= Due(P, p, src, send)
  {
    if log != [] {
      assert Continues(P, log[..|log| - 1], log[|log| - 1]);
      InOrderFront(P, p, log);
      DeliveredIsDue(P, p, log[..|log| - 1], src, send);
    }
  }

  /** No process ever receives more than it is sent. */
  lemma BytesAreOwed(P: Exchange, p: nat, log: seq<Fragment>)
    requires InOrder(P, p, log)
    ensures Bytes(log) <= Owed(P, p)
  {
    BytesByJob(P, p, log);
    forall src: nat | src < P.n ensures FromSources(P, log)(src) <= DueSources(P, p)(src) {
      forall send: nat | send < |P.jobs(src)| ensures FromSends(log, src)(send) <= DueSends(P, p, src)(send) {
        DeliveredIsDue(P, p, log, src, send);
      }
      SumBelow(|P.jobs(src)|, FromSends(log, src), DueSends(P, p, src));
    }
    SumBelow(P.n, FromSources(P, log), DueSources(P, p));
  }

  /** With enough receive space, the overflow check never fails. */
  lemma NeverOverflows(P: Exchange, run: seq<System>, i: nat, p: nat, f: Fragment)
    requires WellFormed(P) && IsRun(P, run) && i < |run| && Enabled(P, run[i], Receive(p, f))
    requires P.space(p) >= Owed(P, p)
    ensures f.len <= run[i].procs[p].room
  {
    RunFits(P, run, i);
    var log := run[i].procs[p].log;
    assert ProcessFits(P, run[i], p);
    FlightContinues(P, run[i], f);
    InOrderNext(P, p, log, f);
    BytesAreOwed(P, p, log + [f]);
    assert (log + [f])[..|log|] == log;
  }

  /** In a state the invariant allows, a process that has left leaves nothing undone anywhere. */
  lemma LeftIsSafe(P: Exchange, s: System, p: nat, q: nat)
    requires WellFormed(P) && Inv(P, s) && p < P.n && q < P.n && s.procs[p].stage.Left?
    ensures s.flight == multiset{}
    ensures Bytes(s.procs[q].log) == Owed(P, q) && InOrder(P, q, s.procs[q].log)
    ensures forall src: nat, send: nat :: IsJob(P, src, send) ==>
                                            Delivered(s.procs[q].log, src, send) == Due(P, q, src, send)
  {
    AllEnteredIsQuiet(P, s);
    assert ProcessFits(P, s, q);
    var log := s.procs[q].log;
    forall src: nat, send: nat | IsJob(P, src, send) ensures Delivered(log, src, send) == Due(P, q, src, send) {
      DeliveredIsDue(P, q, log, src, send);
      assert P.jobs(src)[send].dst == q ==> Through(P, s, src, send) == Delivered(log, src, send);
    }
    BytesByJob(P, q, log);
    forall src: nat | src < P.n ensures FromSources(P, log)(src) == DueSources(P, q)(src) {
      assert forall send: nat :: IsJob(P, src, send) <==> send < |P.jobs(src)|;
      SumEqual(|P.jobs(src)|, FromSends(log, src), DueSends(P, q, src));
    }
    SumEqual(P.n, FromSources(P, log), DueSources(P, q));
  }

  /**
   * Safety: when any process leaves the loop, no fragment is in flight anywhere, every process
   * has received all that was sent to it and nothing else, and each send arrived in order.
   */
  lemma LeavingIsSafe(P: Exchange, run: seq<System>, i: nat, p: nat, q: nat)
    requires WellFormed(P) && IsRun(P, run) && i < |run| && p < P.n && q < P.n
    requires |run[i].procs| == P.n && run[i].procs[p].stage.Left?
    ensures run[i].flight == multiset{}
    ensures Bytes(run[i].procs[q].log) == Owed(P, q) && InOrder(P, q, run[i].procs[q].log)
    ensures forall src: nat, send: nat :: IsJob(P, src, send) ==>
                                            Delivered(run[i].procs[q].log, src, send) == Due(P, q, src, send)
  {
    RunFits(P, run, i);
    LeftIsSafe(P, run[i], p, q);
  }

  // ---------------------------------------------------------------- the length of a message

  /** A message is not empty and within the limit; one that does not end its send is as long as the limit. */
  ghost predicate Sized(P: Exchange, f: Fragment) {
    && IsJob(P, f.src, f.send) && 0 < f.len <= P.limit
    && f.end <= P.jobs(f.src)[f.send].offset + P.jobs(f.src)[f.send].count
    && (f.end < P.jobs(f.src)[f.send].offset + P.jobs(f.src)[f.send].count ==> f.len == P.limit)
  }

  /** So is every message in flight and every message received. */
  ghost predicate AllSized(P: Exchange, s: System) {
    && (forall f :: f in s.flight ==> Sized(P, f))
    && forall p: nat, f :: p < |s.procs| && f in s.procs[p].log ==> Sized(P, f)
  }

  lemma PostedSized(P: Exchange, s: System, p: nat, it: Item)
    requires WellFormed(P) && |s.procs| == P.n && p < P.n && ItemFits(P, s, p, Posted(it, P.limit))
    ensures forall f :: f in Messages(p, Posted(it, P.limit)) ==> Sized(P, f)
  {
  }

  /** A step that posts something keeps the sizes if what it posts has the right size. */
  lemma PostingKeepsSizes(P: Exchange, s: System, t: System, p: nat, it: Item)
    requires WellFormed(P) && |s.procs| == |t.procs| == P.n && AllSized(P, s) && SameLogs(s, t)
    requires p < P.n && ItemFits(P, t, p, Posted(it, P.limit))
    requires t.flight == s.flight + Messages(p, Posted(it, P.limit))
    ensures AllSized(P, t)
  {
    PostedSized(P, t, p, it);
  }

  lemma PostKeepsSizes(P: Exchange, s: System, p: nat)
    requires WellFormed(P) && Inv(P, s) && Enabled(P, s, Post(p)) && AllSized(P, s)
    ensures AllSized(P, Apply(P, s, Post(p)))
  {
    var m := |s.procs[p].items|;
    var job := P.jobs(p)[m];
    FirstPosts(P, s, p);
    PostingKeepsSizes(P, s, Apply(P, s, Post(p)), p, Item(m, job.dst, job.offset, job.count, 0));
  }

  lemma CompleteKeepsSizes(P: Exchange, s: System, p: nat, k: nat)
    requires WellFormed(P) && Inv(P, s) && Enabled(P, s, Complete(p, k)) && AllSized(P, s)
    ensures AllSized(P, Apply(P, s, Complete(p, k)))
  {
    CompletedPosts(P, s, p, k);
    PostingKeepsSizes(P, s, Apply(P, s, Complete(p, k)), p, s.procs[p].items[k]);
  }

  lemma StepKeepsSizes(P: Exchange, s: System, e: Event)
    requires WellFormed(P) && Inv(P, s) && Enabled(P, s, e) && AllSized(P, s)
    ensures AllSized(P, Apply(P, s, e))
  {
    match e
    case Post(p) => PostKeepsSizes(P, s, p);
    case Complete(p, k) => CompleteKeepsSizes(P, s, p, k);
    case _ =>
  }

  lemma NextKeepsSizes(P: Exchange, run: seq<System>, i: nat)
    requires WellFormed(P) && IsRun(P, run) && i + 1 < |run| && AllSized(P, run[i])
    ensures AllSized(P, run[i + 1])
  {
    RunFits(P, run, i);
    assert IsStep(P, run[i], run[i + 1]);
    var e :| Enabled(P, run[i], e) && run[i + 1] == Apply(P, run[i], e);
    StepKeepsSizes(P, run[i], e);
  }

  /**
   * In every state of every run, no message in flight or received is longer than the limit, and each
   * but the last of its send is just as long.
   */
  lemma {:induction false} MessagesKeepLimit(P: Exchange, run: seq<System>, i: nat)
    requires WellFormed(P) && IsRun(P, run) && i < |run|
    ensures AllSized(P, run[i])
  {
    if i > 0 {
      MessagesKeepLimit(P, run, i - 1);
      NextKeepsSizes(P, run, i - 1);
    }
  }

  // ---------------------------------------------------------------- the bytes that arrive

  /** `data(p, a)` is byte a of process p's send buffer. */
  ghost function Slice<B>(data: (nat, nat) -> B, src: nat, from: nat, len: nat): seq<B> {
    seq(len, i requires 0 <= i => data(src, from + i))
  }

  /** What the receive buffer holds of one send, put together in the order of arrival. */
  ghost function Payload<B>(log: seq<Fragment>, src: nat, send: nat, data: (nat, nat) -> B): seq<B> {
    if log == [] then []
    else var f := log[|log| - 1];
         Payload(log[..|log| - 1], src, send, data)
         + if f.src == src && f.send == send && f.len <= f.end then Slice(data, src, f.end - f.len, f.len) else []
  }

  lemma SlicesJoin<B>(data: (nat, nat) -> B, src: nat, from: nat, a: nat, b: nat)
    ensures Slice(data, src, from, a) + Slice(data, src, from + a, b) == Slice(data, src, from, a + b)
  {
  }

  /** The bytes received of a send are a prefix of it: all of it, once the send is through. */
  lemma {:induction false} PayloadIsPrefix<B>(
    P: Exchange, p: nat, log: seq<Fragment>, src: nat, send: nat, data: (nat, nat) -> B)
    requires InOrder(P, p, log) && IsJob(P, src, send)
    ensures Payload(log, src, send, data) == Slice(data, src, P.jobs(src)[send].offset, Delivered(log, src, send))
  {
    if log != [] {
      var front, f := log[..|log| - 1], log[|log| - 1];
      assert Continues(P, front, f);
      InOrderFront(P, p, log);
      PayloadIsPrefix(P, p, front, src, send, data);
      if f.src == src && f.send == send {
        var offset, n := P.jobs(src)[send].offset, Delivered(front, src, send);
        SlicesJoin(data, src, offset, n, f.len);
      }
    }
  }
}
