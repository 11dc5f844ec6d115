/**
 * The sparse all-to-all (Hoefler's NBX) of `n` processes as a transition system.
 *
 * A synchronous send completes only once it is matched by a receive; a non-blocking barrier
 * completes only once every process has entered it.  The network may delay and reorder
 * fragments as it likes, even those of one source.
 */
module Nbx {
  import opened NbxSends
  import opened SwapRemoval

  /** A send as the caller gives it: `count` bytes at `offset` of its send buffer, to `dst`. */
  datatype Job = Job(dst: nat, offset: nat, count: nat)

  /** `jobs(p)` are the sends of process p, `space(p)` is its receive space, `limit` the message size. */
  datatype Exchange = Exchange(n: nat, jobs: nat -> seq<Job>, space: nat -> nat, limit: nat)

  /** The `len` bytes of a send that end just before `end`. */
  datatype Fragment = Fragment(src: nat, send: nat, dst: nat, end: nat, len: nat)

  datatype Stage = Posting | Looping | InBarrier | Left

  /** `log` are the fragments received, in order; `room` is the receive space left. */
  datatype Process = Process(stage: Stage, items: seq<Item>, log: seq<Fragment>, room: int)

  datatype System = System(procs: seq<Process>, flight: multiset<Fragment>, matched: set<Fragment>)

  datatype Event =
    | Post(p: nat)
    | EnterLoop(p: nat)
    | Receive(p: nat, f: Fragment)
    | Complete(p: nat, k: nat)
    | Sweep(p: nat)
    | Leave(p: nat)

  ghost predicate WellFormed(P: Exchange) {
    P.limit > 0 && forall p: nat, k: nat :: p < P.n && k < |P.jobs(p)| ==> P.jobs(p)[k].dst < P.n
  }

  ghost function Init(P: Exchange): System {
    System(seq(P.n, p requires 0 <= p => Process(Posting, [], [], P.space(p))), multiset{}, {})
  }

  /** The message an item's request tracks. */
  function Frag(p: nat, it: Item): Fragment {
    Fragment(p, it.send, it.dst, it.offset, it.pending)
  }

  function Messages(p: nat, it: Item): multiset<Fragment> {
    if it.pending == 0 then multiset{} else multiset{Frag(p, it)}
  }

  function FirstItem(P: Exchange, p: nat, k: nat): Item
    requires k < |P.jobs(p)|
  {
    var job := P.jobs(p)[k];
    Posted(Item(k, job.dst, job.offset, job.count, 0), P.limit)
  }

  ghost predicate Enabled(P: Exchange, s: System, e: Event) {
    && |s.procs| == P.n && e.p < P.n
    && var pr := s.procs[e.p];
       match e
       case Post(p) => pr.stage.Posting? && |pr.items| < |P.jobs(p)|
       case EnterLoop(p) => pr.stage.Posting? && |pr.items| == |P.jobs(p)|
       case Receive(p, f) => (pr.stage.Looping? || pr.stage.InBarrier?) && f in s.flight && f.dst == p
       case Complete(p, k) =>
         pr.stage.Looping? && k < |pr.items| && pr.items[k].pending > 0 && Frag(p, pr.items[k]) in s.matched
       case Sweep(p) => pr.stage.Looping?
       case Leave(p) => pr.stage.InBarrier? && forall q: nat :: q < P.n ==> Entered(s, q)
  }

  ghost predicate Entered(s: System, q: nat)
    requires q < |s.procs|
  {
    s.procs[q].stage.InBarrier? || s.procs[q].stage.Left?
  }

  ghost function Apply(P: Exchange, s: System, e: Event): System
    requires Enabled(P, s, e)
  {
    var p, pr := e.p, s.procs[e.p];
    match e
    case Post(_) =>
      var it := FirstItem(P, p, |pr.items|);
      s.(procs := s.procs[p := pr.(items := pr.items + [it])], flight := s.flight + Messages(p, it))
    case EnterLoop(_) => s.(procs := s.procs[p := pr.(stage := Looping)])
    case Receive(_, f) =>
      s.(procs := s.procs[p := pr.(log := pr.log + [f], room := pr.room - f.len)],
         flight := s.flight - multiset{f}, matched := s.matched + {f})
    case Complete(_, k) =>
      var it := Posted(pr.items[k], P.limit);
      s.(procs := s.procs[p := pr.(items := pr.items[k := it])], flight := s.flight + Messages(p, it))
    case Sweep(_) =>
      var left := Swept(pr.items);
      s.(procs := s.procs[p := pr.(items := left, stage := if left == [] then InBarrier else Looping)])
    case Leave(_) => s.(procs := s.procs[p := pr.(stage := Left)])
  }

  ghost predicate IsRun(P: Exchange, run: seq<System>) {
    && run != [] && run[0] == Init(P)
    && forall i :: 0 <= i < |run| - 1 ==> IsStep(P, run[i], run[i + 1])
  }

  ghost predicate IsStep(P: Exchange, s: System, t: System) {
    exists e :: Enabled(P, s, e) && t == Apply(P, s, e)
  }

  // ---------------------------------------------------------------- what has arrived

  /** The bytes of a send that a log holds. */
  function Delivered(log: seq<Fragment>, src: nat, send: nat): nat {
    if log == [] then 0
    else var f := log[|log| - 1];
         Delivered(log[..|log| - 1], src, send) + if f.src == src && f.send == send then f.len else 0
  }

  function Bytes(log: seq<Fragment>): nat {
    if log == [] then 0 else Bytes(log[..|log| - 1]) + log[|log| - 1].len
  }

  ghost predicate IsJob(P: Exchange, src: nat, send: nat) {
    src < P.n && send < |P.jobs(src)|
  }

  /** The fragment continues its send exactly where the log before it left off. */
  ghost predicate Continues(P: Exchange, log: seq<Fragment>, f: Fragment) {
    && IsJob(P, f.src, f.send) && f.dst == P.jobs(f.src)[f.send].dst && f.len > 0
    && f.end == P.jobs(f.src)[f.send].offset + Delivered(log, f.src, f.send) + f.len
    && Delivered(log, f.src, f.send) + f.len <= P.jobs(f.src)[f.send].count
  }

  /** Fragments of each send arrive in order, without gaps, repetition or anything past its end. */
  ghost predicate InOrder(P: Exchange, p: nat, log: seq<Fragment>) {
    forall i :: 0 <= i < |log| ==> log[i].dst == p && Continues(P, log[..i], log[i])
  }

  /** The bytes job (src, send) has got through, wherever it goes. */
  ghost function Through(P: Exchange, s: System, src: nat, send: nat): nat
    requires WellFormed(P) && |s.procs| == P.n && IsJob(P, src, send)
  {
    Delivered(s.procs[P.jobs(src)[send].dst].log, src, send)
  }

  // ---------------------------------------------------------------- the invariant

  /** Item `it` describes its job: what is past, what is in its message, what is left. */
  ghost predicate ItemFits(P: Exchange, s: System, p: nat, it: Item)
    requires WellFormed(P) && |s.procs| == P.n && p < P.n
  {
    && it.send < |P.jobs(p)|
    && var job := P.jobs(p)[it.send];
       var through := Through(P, s, p, it.send);
       && it.dst == job.dst && it.offset + it.count == job.offset + job.count
       && (it.pending == 0 ==> it.count == 0)
       && it.offset == job.offset + through + (if Frag(p, it) in s.flight then it.pending else 0)
       && (it.pending > 0 ==> (Frag(p, it) in s.flight) != (Frag(p, it) in s.matched))
  }

  ghost predicate HasItem(items: seq<Item>, send: nat) {
    exists k: nat :: k < |items| && items[k].send == send
  }

  /** A job without an item is wholly through, or not started. */
  ghost predicate JobFits(P: Exchange, s: System, p: nat, send: nat)
    requires WellFormed(P) && |s.procs| == P.n && IsJob(P, p, send)
  {
    var pr := s.procs[p];
    if pr.stage.Posting? then |pr.items| <= send ==> Through(P, s, p, send) == 0
    else HasItem(pr.items, send) || Through(P, s, p, send) == P.jobs(p)[send].count
  }

  ghost predicate OneItemEach(items: seq<Item>) {
    forall j: nat, k: nat :: j < k < |items| ==> items[j].send != items[k].send
  }

  ghost predicate ProcessFits(P: Exchange, s: System, p: nat)
    requires WellFormed(P) && |s.procs| == P.n && p < P.n
  {
    var pr := s.procs[p];
    && (forall k: nat :: k < |pr.items| ==> ItemFits(P, s, p, pr.items[k]))
    && OneItemEach(pr.items)
    && (forall send: nat :: IsJob(P, p, send) ==> JobFits(P, s, p, send))
    && (pr.stage.Posting? ==> |pr.items| <= |P.jobs(p)| && forall k: nat :: k < |pr.items| ==> pr.items[k].send == k)
    && (pr.stage.InBarrier? || pr.stage.Left? ==> pr.items == [])
    && InOrder(P, p, pr.log) && pr.room + Bytes(pr.log) == P.space(p)
  }

  /** A fragment in flight is there once, and is the message some item waits for. */
  ghost predicate FlightFits(P: Exchange, s: System, f: Fragment)
    requires |s.procs| == P.n
  {
    s.flight[f] == 1 && f.src < P.n
    && exists k: nat :: k < |s.procs[f.src].items| && s.procs[f.src].items[k].pending > 0
                        && Frag(f.src, s.procs[f.src].items[k]) == f
  }

  /** A matched fragment lies within what is through. */
  ghost predicate MatchedFits(P: Exchange, s: System, f: Fragment)
    requires WellFormed(P) && |s.procs| == P.n
  {
    IsJob(P, f.src, f.send) && f.end <= P.jobs(f.src)[f.send].offset + Through(P, s, f.src, f.send)
  }

  ghost predicate Inv(P: Exchange, s: System)
    requires WellFormed(P)
  {
    && |s.procs| == P.n
    && (forall p: nat :: p < P.n ==> ProcessFits(P, s, p))
    && (forall f :: f in s.flight ==> FlightFits(P, s, f))
    && (forall f :: f in s.matched ==> MatchedFits(P, s, f))
    && forall p: nat, q: nat :: p < P.n && q < P.n && s.procs[p].stage.Left? ==> Entered(s, q)
  }

  lemma InitFits(P: Exchange)
    requires WellFormed(P)
    ensures Inv(P, Init(P))
  {
  }

  /** What a step of process p leaves alone as far as process q is concerned. */
  ghost predicate Undisturbed(P: Exchange, s: System, t: System, q: nat)
    requires WellFormed(P) && |s.procs| == |t.procs| == P.n && q < P.n
  {
    && s.procs[q] == t.procs[q]
    && (forall send: nat :: IsJob(P, q, send) ==> Through(P, s, q, send) == Through(P, t, q, send))
    && forall f: Fragment :: f.src == q ==> t.flight[f] == s.flight[f] && (f in t.matched <==> f in s.matched)
  }

  lemma UndisturbedFits(P: Exchange, s: System, t: System, q: nat)
    requires WellFormed(P) && |s.procs| == |t.procs| == P.n && q < P.n
    requires Undisturbed(P, s, t, q) && ProcessFits(P, s, q)
    ensures ProcessFits(P, t, q)
  {
    forall k: nat | k < |t.procs[q].items| ensures ItemFits(P, t, q, t.procs[q].items[k]) {
      assert ItemFits(P, s, q, s.procs[q].items[k]);
    }
    forall send: nat | IsJob(P, q, send) ensures JobFits(P, t, q, send) {
      assert JobFits(P, s, q, send);
    }
  }

  /** Steps that receive nothing change no process's log. */
  ghost predicate SameLogs(s: System, t: System) {
    |s.procs| == |t.procs| && forall p: nat :: p < |s.procs| ==> s.procs[p].log == t.procs[p].log
  }

  lemma SameThrough(P: Exchange, s: System, t: System, q: nat)
    requires WellFormed(P) && |s.procs| == P.n && q < P.n && SameLogs(s, t)
    ensures forall send: nat :: IsJob(P, q, send) ==> Through(P, s, q, send) == Through(P, t, q, send)
  {
  }

  /** Starting the next fragment of an item whose message is through, or which has none yet. */
  lemma PostedFits(P: Exchange, s: System, t: System, p: nat, it: Item)
    requires WellFormed(P) && Inv(P, s) && p < P.n && IsJob(P, p, it.send) && SameLogs(s, t) && t.matched == s.matched
    requires var job := P.jobs(p)[it.send];
             && it.dst == job.dst && it.offset + it.count == job.offset + job.count
             && it.offset == job.offset + Through(P, s, p, it.send)
    requires t.flight == s.flight + Messages(p, Posted(it, P.limit))
    requires forall f :: f in s.flight ==> f.src != p || f.send != it.send
    ensures ItemFits(P, t, p, Posted(it, P.limit))
    ensures forall f: Fragment :: f.src != p || f.send != it.send ==> t.flight[f] == s.flight[f]
    ensures forall f :: f in Messages(p, Posted(it, P.limit)) ==> t.flight[f] == 1
  {
    SameThrough(P, s, t, p);
    var u := Posted(it, P.limit);
    forall f | f in s.matched && f.src == p && f.send == it.send ensures f.end <= it.offset {
      assert MatchedFits(P, s, f);
    }
  }

  /** No message of a job is in flight that has no item. */
  lemma NothingInFlight(P: Exchange, s: System, p: nat, send: nat)
    requires WellFormed(P) && Inv(P, s) && p < P.n && !HasItem(s.procs[p].items, send)
    ensures forall f :: f in s.flight ==> f.src != p || f.send != send
  {
    forall f | f in s.flight && f.src == p ensures f.send != send {
      assert FlightFits(P, s, f);
    }
  }

  /** If everything about process p and the network is in order, the whole system is. */
  lemma OthersFit(P: Exchange, s: System, t: System, p: nat)
    requires WellFormed(P) && Inv(P, s) && p < P.n && SameLogs(s, t) && t.matched == s.matched
    requires forall q: nat :: q < P.n && q != p ==> t.procs[q] == s.procs[q]
    requires forall f: Fragment :: f.src != p ==> t.flight[f] == s.flight[f]
    requires ProcessFits(P, t, p)
    requires forall f: Fragment :: f in t.flight && f.src == p ==> FlightFits(P, t, f)
    requires s.procs[p].stage.Left? == t.procs[p].stage.Left? && (Entered(s, p) ==> Entered(t, p))
    ensures Inv(P, t)
  {
    forall q: nat | q < P.n ensures ProcessFits(P, t, q) {
      if q != p {
        SameThrough(P, s, t, q);
        UndisturbedFits(P, s, t, q);
      }
    }
    forall f | f in t.flight ensures FlightFits(P, t, f) {
      if f.src != p {
        assert FlightFits(P, s, f);
      }
    }
    forall f | f in t.matched ensures MatchedFits(P, t, f) {
      assert MatchedFits(P, s, f);
      SameThrough(P, s, t, f.src);
    }
    forall a: nat, q: nat | a < P.n && q < P.n && t.procs[a].stage.Left? ensures Entered(t, q) {
      assert s.procs[a].stage.Left? && Entered(s, q);
    }
  }

  /** An item of process p that a step of p leaves alone. */
  lemma ItemStays(P: Exchange, s: System, t: System, p: nat, it: Item)
    requires WellFormed(P) && |s.procs| == P.n && p < P.n && SameLogs(s, t) && t.matched == s.matched
    requires ItemFits(P, s, p, it) && t.flight[Frag(p, it)] == s.flight[Frag(p, it)]
    ensures ItemFits(P, t, p, it)
  {
    SameThrough(P, s, t, p);
  }

  lemma JobStays(P: Exchange, s: System, t: System, p: nat, send: nat)
    requires WellFormed(P) && |s.procs| == P.n && IsJob(P, p, send) && SameLogs(s, t) && JobFits(P, s, p, send)
    requires t.procs[p].stage == s.procs[p].stage && |s.procs[p].items| <= |t.procs[p].items|
    requires forall k: nat :: k < |s.procs[p].items| ==> t.procs[p].items[k].send == s.procs[p].items[k].send
    ensures JobFits(P, t, p, send)
  {
    SameThrough(P, s, t, p);
    if k: nat :| k < |s.procs[p].items| && s.procs[p].items[k].send == send {
      assert t.procs[p].items[k].send == send;
    }
  }

  lemma FlightStays(P: Exchange, s: System, t: System, p: nat, f: Fragment)
    requires WellFormed(P) && |s.procs| == |t.procs| == P.n && f.src == p
    requires FlightFits(P, s, f) && t.flight[f] == s.flight[f]
    requires forall k: nat :: k < |s.procs[p].items| && s.procs[p].items[k].send == f.send ==>
                                k < |t.procs[p].items| && t.procs[p].items[k] == s.procs[p].items[k]
    ensures FlightFits(P, t, f)
  {
    var k: nat :| k < |s.procs[p].items| && s.procs[p].items[k].pending > 0 && Frag(p, s.procs[p].items[k]) == f;
    assert t.procs[p].items[k] == s.procs[p].items[k];
  }

  lemma FirstPosts(P: Exchange, s: System, p: nat)
    requires WellFormed(P) && Inv(P, s) && Enabled(P, s, Post(p))
    ensures var t, m := Apply(P, s, Post(p)), |s.procs[p].items|;
            && ItemFits(P, t, p, FirstItem(P, p, m))
            && (forall f: Fragment :: f.src != p || f.send != m ==> t.flight[f] == s.flight[f])
            && forall f: Fragment :: f in t.flight && f.src == p && f.send == m ==>
                                       t.flight[f] == 1 && f == Frag(p, FirstItem(P, p, m)) && f.len > 0
  {
    var m := |s.procs[p].items|;
    var job := P.jobs(p)[m];
    assert ProcessFits(P, s, p);
    assert JobFits(P, s, p, m) && !HasItem(s.procs[p].items, m);
    NothingInFlight(P, s, p, m);
    PostedFits(P, s, Apply(P, s, Post(p)), p, Item(m, job.dst, job.offset, job.count, 0));
  }

  lemma FirstItems(P: Exchange, s: System, p: nat, j: nat)
    requires WellFormed(P) && Inv(P, s) && Enabled(P, s, Post(p)) && j <= |s.procs[p].items|
    ensures ItemFits(P, Apply(P, s, Post(p)), p, Apply(P, s, Post(p)).procs[p].items[j])
  {
    FirstPosts(P, s, p);
    if j < |s.procs[p].items| {
      assert ProcessFits(P, s, p);
      ItemStays(P, s, Apply(P, s, Post(p)), p, s.procs[p].items[j]);
    }
  }

  lemma FirstFits(P: Exchange, s: System, p: nat)
    requires WellFormed(P) && Inv(P, s) && Enabled(P, s, Post(p))
    ensures ProcessFits(P, Apply(P, s, Post(p)), p)
  {
    var t := Apply(P, s, Post(p));
    assert ProcessFits(P, s, p);
    forall k: nat | k < |t.procs[p].items| ensures ItemFits(P, t, p, t.procs[p].items[k]) {
      FirstItems(P, s, p, k);
    }
    forall send: nat | IsJob(P, p, send) ensures JobFits(P, t, p, send) {
      JobStays(P, s, t, p, send);
    }
  }

  lemma PostKeeps(P: Exchange, s: System, p: nat)
    requires WellFormed(P) && Inv(P, s) && Enabled(P, s, Post(p))
    ensures Inv(P, Apply(P, s, Post(p)))
  {
    var t, m := Apply(P, s, Post(p)), |s.procs[p].items|;
    FirstFits(P, s, p);
    FirstPosts(P, s, p);
    forall f: Fragment | f in t.flight && f.src == p ensures FlightFits(P, t, f) {
      if f.send == m {
        assert t.procs[p].items[m] == FirstItem(P, p, m);
      } else {
        FlightStays(P, s, t, p, f);
      }
    }
    OthersFit(P, s, t, p);
  }

  /** The message of a completed item is through, and nothing of its job is in flight. */
  lemma CompletedPosts(P: Exchange, s: System, p: nat, k: nat)
    requires WellFormed(P) && Inv(P, s) && Enabled(P, s, Complete(p, k))
    ensures var t, it := Apply(P, s, Complete(p, k)), s.procs[p].items[k];
            && ItemFits(P, t, p, Posted(it, P.limit))
            && (forall f: Fragment :: f.src != p || f.send != it.send ==> t.flight[f] == s.flight[f])
            && forall f: Fragment :: f in t.flight && f.src == p && f.send == it.send ==>
                                       t.flight[f] == 1 && f == Frag(p, Posted(it, P.limit)) && f.len > 0
  {
    var it := s.procs[p].items[k];
    assert ProcessFits(P, s, p);
    assert ItemFits(P, s, p, it);
    forall f | f in s.flight && f.src == p ensures f.send != it.send {
      assert FlightFits(P, s, f);
    }
    PostedFits(P, s, Apply(P, s, Complete(p, k)), p, it);
  }

  lemma CompletedItem(P: Exchange, s: System, p: nat, k: nat, j: nat)
    requires WellFormed(P) && Inv(P, s) && Enabled(P, s, Complete(p, k)) && j < |s.procs[p].items|
    ensures ItemFits(P, Apply(P, s, Complete(p, k)), p, Apply(P, s, Complete(p, k)).procs[p].items[j])
  {
    CompletedPosts(P, s, p, k);
    if j != k {
      assert ProcessFits(P, s, p);
      ItemStays(P, s, Apply(P, s, Complete(p, k)), p, s.procs[p].items[j]);
    }
  }

  lemma CompletedFits(P: Exchange, s: System, p: nat, k: nat)
    requires WellFormed(P) && Inv(P, s) && Enabled(P, s, Complete(p, k))
    ensures ProcessFits(P, Apply(P, s, Complete(p, k)), p)
  {
    var t := Apply(P, s, Complete(p, k));
    assert ProcessFits(P, s, p);
    forall j: nat | j < |t.procs[p].items| ensures ItemFits(P, t, p, t.procs[p].items[j]) {
      CompletedItem(P, s, p, k, j);
    }
    forall send: nat | IsJob(P, p, send) ensures JobFits(P, t, p, send) {
      JobStays(P, s, t, p, send);
    }
  }

  lemma CompleteKeeps(P: Exchange, s: System, p: nat, k: nat)
    requires WellFormed(P) && Inv(P, s) && Enabled(P, s, Complete(p, k))
    ensures Inv(P, Apply(P, s, Complete(p, k)))
  {
    var t, it := Apply(P, s, Complete(p, k)), s.procs[p].items[k];
    CompletedFits(P, s, p, k);
    CompletedPosts(P, s, p, k);
    forall f: Fragment | f in t.flight && f.src == p ensures FlightFits(P, t, f) {
      if f.send == it.send {
        assert t.procs[p].items[k] == Posted(it, P.limit);
      } else {
        FlightStays(P, s, t, p, f);
      }
    }
    OthersFit(P, s, t, p);
  }

  lemma {:induction false} SweepKeepsOneEach(items: seq<Item>, i: nat)
    requires i <= |items| && OneItemEach(items)
    ensures OneItemEach(SweepUp(items, Finished, i))
    decreases |items| - i
  {
    if i < |items| {
      if Finished(items[i]) {
        SweepKeepsOneEach(DropAt(items, i), i);
      } else {
        SweepKeepsOneEach(items, i + 1);
      }
    }
  }

  lemma SweptItems(items: seq<Item>)
    ensures forall it :: it in Swept(items) <==> it in items && !Finished(it)
  {
    SweepDropsFinished(items);
    forall it ensures it in Swept(items) <==> it in items && !Finished(it) {
      assert it in Swept(items) <==> multiset(Swept(items))[it] > 0;
      assert it in items <==> multiset(items)[it] > 0;
    }
  }

  lemma SweptJob(P: Exchange, s: System, t: System, p: nat, send: nat)
    requires WellFormed(P) && Inv(P, s) && Enabled(P, s, Sweep(p)) && t == Apply(P, s, Sweep(p)) && IsJob(P, p, send)
    requires forall it :: it in t.procs[p].items <==> it in s.procs[p].items && !Finished(it)
    ensures JobFits(P, t, p, send)
  {
    var items := s.procs[p].items;
    assert ProcessFits(P, s, p);
    assert JobFits(P, s, p, send);
    SameThrough(P, s, t, p);
    if j: nat :| j < |items| && items[j].send == send {
      assert ItemFits(P, s, p, items[j]);
      if !Finished(items[j]) {
        assert items[j] in t.procs[p].items;
      }
    }
  }

  lemma SweptFits(P: Exchange, s: System, p: nat)
    requires WellFormed(P) && Inv(P, s) && Enabled(P, s, Sweep(p))
    ensures ProcessFits(P, Apply(P, s, Sweep(p)), p)
  {
    var t, pr := Apply(P, s, Sweep(p)), s.procs[p];
    assert ProcessFits(P, s, p);
    SweptItems(pr.items);
    SweepKeepsOneEach(pr.items, 0);
    forall k: nat | k < |t.procs[p].items| ensures ItemFits(P, t, p, t.procs[p].items[k]) {
      assert t.procs[p].items[k] in pr.items;
      ItemStays(P, s, t, p, t.procs[p].items[k]);
    }
    forall send: nat | IsJob(P, p, send) ensures JobFits(P, t, p, send) {
      SweptJob(P, s, t, p, send);
    }
  }

  lemma SweepKeeps(P: Exchange, s: System, p: nat)
    requires WellFormed(P) && Inv(P, s) && Enabled(P, s, Sweep(p))
    ensures Inv(P, Apply(P, s, Sweep(p)))
  {
    var t, pr := Apply(P, s, Sweep(p)), s.procs[p];
    SweptFits(P, s, p);
    SweptItems(pr.items);
    forall f: Fragment | f in t.flight && f.src == p ensures FlightFits(P, t, f) {
      assert FlightFits(P, s, f);
      var k: nat :| k < |pr.items| && pr.items[k].pending > 0 && Frag(p, pr.items[k]) == f;
      assert pr.items[k] in t.procs[p].items;
    }
    OthersFit(P, s, t, p);
  }

  // ---------------------------------------------------------------- receiving

  lemma DeliveredNext(log: seq<Fragment>, f: Fragment, src: nat, send: nat)
    ensures Delivered(log + [f], src, send) ==
              Delivered(log, src, send) + if f.src == src && f.send == send then f.len else 0
  {
    assert (log + [f])[..|log|] == log;
  }

  /** A fragment in flight is exactly what its receiver's log lacks next of that send. */
  lemma FlightContinues(P: Exchange, s: System, f: Fragment)
    requires WellFormed(P) && Inv(P, s) && f in s.flight
    ensures f.dst < P.n && Continues(P, s.procs[f.dst].log, f)
    ensures f !in s.matched && HasItem(s.procs[f.src].items, f.send)
  {
    assert FlightFits(P, s, f);
    var k: nat :| k < |s.procs[f.src].items| && s.procs[f.src].items[k].pending > 0
                  && Frag(f.src, s.procs[f.src].items[k]) == f;
    assert ProcessFits(P, s, f.src);
    assert ItemFits(P, s, f.src, s.procs[f.src].items[k]);
  }

  lemma ReceivedThrough(P: Exchange, s: System, p: nat, f: Fragment, q: nat, send: nat)
    requires WellFormed(P) && Inv(P, s) && Enabled(P, s, Receive(p, f)) && IsJob(P, q, send)
    ensures Through(P, Apply(P, s, Receive(p, f)), q, send)
            == Through(P, s, q, send) + if f.src == q && f.send == send then f.len else 0
  {
    FlightContinues(P, s, f);
    DeliveredNext(s.procs[p].log, f, q, send);
  }

  /** The item of a send in flight tracks exactly that fragment. */
  lemma FlightOfItem(P: Exchange, s: System, f: Fragment, k: nat)
    requires WellFormed(P) && Inv(P, s) && f in s.flight && f.src < P.n
    requires k < |s.procs[f.src].items| && s.procs[f.src].items[k].send == f.send
    ensures Frag(f.src, s.procs[f.src].items[k]) == f
  {
    assert FlightFits(P, s, f);
    var j: nat :| j < |s.procs[f.src].items| && s.procs[f.src].items[j].pending > 0
                  && Frag(f.src, s.procs[f.src].items[j]) == f;
    assert ProcessFits(P, s, f.src);
    assert j == k;
  }

  lemma ReceivedItem(P: Exchange, s: System, p: nat, f: Fragment, q: nat, k: nat)
    requires WellFormed(P) && Inv(P, s) && Enabled(P, s, Receive(p, f)) && q < P.n && k < |s.procs[q].items|
    ensures ItemFits(P, Apply(P, s, Receive(p, f)), q, s.procs[q].items[k])
  {
    var it := s.procs[q].items[k];
    assert ItemFits(P, s, q, it) by {
      assert ProcessFits(P, s, q);
    }
    assert s.flight[f] == 1 by {
      assert FlightFits(P, s, f);
    }
    ReceivedThrough(P, s, p, f, q, it.send);
    if f.src == q && f.send == it.send {
      FlightOfItem(P, s, f, k);
    }
  }

  lemma ReceivedOwnJob(P: Exchange, s: System, p: nat, f: Fragment)
    requires WellFormed(P) && Inv(P, s) && Enabled(P, s, Receive(p, f)) && IsJob(P, f.src, f.send)
    ensures JobFits(P, Apply(P, s, Receive(p, f)), f.src, f.send)
  {
    FlightContinues(P, s, f);
    var items := s.procs[f.src].items;
    var k: nat :| k < |items| && items[k].send == f.send;
    assert s.procs[f.src].stage.Posting? ==> k == f.send by {
      assert ProcessFits(P, s, f.src);
    }
    assert Apply(P, s, Receive(p, f)).procs[f.src].items[k].send == f.send;
  }

  lemma ReceivedJob(P: Exchange, s: System, p: nat, f: Fragment, q: nat, send: nat)
    requires WellFormed(P) && Inv(P, s) && Enabled(P, s, Receive(p, f)) && IsJob(P, q, send)
    ensures JobFits(P, Apply(P, s, Receive(p, f)), q, send)
  {
    if f.src == q && f.send == send {
      ReceivedOwnJob(P, s, p, f);
    } else {
      ReceivedThrough(P, s, p, f, q, send);
      assert JobFits(P, s, q, send) by {
        assert ProcessFits(P, s, q);
      }
    }
  }

  lemma ReceivedFits(P: Exchange, s: System, p: nat, f: Fragment, q: nat)
    requires WellFormed(P) && Inv(P, s) && Enabled(P, s, Receive(p, f)) && q < P.n
    ensures ProcessFits(P, Apply(P, s, Receive(p, f)), q)
  {
    var t, log := Apply(P, s, Receive(p, f)), s.procs[p].log;
    assert ProcessFits(P, s, q);
    forall k: nat | k < |t.procs[q].items| ensures ItemFits(P, t, q, t.procs[q].items[k]) {
      ReceivedItem(P, s, p, f, q, k);
    }
    forall send: nat | IsJob(P, q, send) ensures JobFits(P, t, q, send) {
      ReceivedJob(P, s, p, f, q, send);
    }
    if p == q {
      FlightContinues(P, s, f);
      InOrderNext(P, p, log, f);
      assert (log + [f])[..|log|] == log;
    }
  }

  lemma InOrderNext(P: Exchange, p: nat, log: seq<Fragment>, f: Fragment)
    requires InOrder(P, p, log) && f.dst == p && Continues(P, log, f)
    ensures InOrder(P, p, log + [f])
  {
    forall i | 0 <= i < |log + [f]| ensures (log + [f])[i].dst == p && Continues(P, (log + [f])[..i], (log + [f])[i]) {
      assert (log + [f])[..i] == log[..i];
      assert log[..|log|] == log;
    }
  }

  lemma ReceiveKeeps(P: Exchange, s: System, p: nat, f: Fragment)
    requires WellFormed(P) && Inv(P, s) && Enabled(P, s, Receive(p, f))
    ensures Inv(P, Apply(P, s, Receive(p, f)))
  {
    var t := Apply(P, s, Receive(p, f));
    forall q: nat | q < P.n ensures ProcessFits(P, t, q) {
      ReceivedFits(P, s, p, f, q);
    }
    assert FlightFits(P, s, f);
    forall g | g in t.flight ensures FlightFits(P, t, g) {
      assert FlightFits(P, s, g);
      var k: nat :| k < |s.procs[g.src].items| && s.procs[g.src].items[k].pending > 0
                    && Frag(g.src, s.procs[g.src].items[k]) == g;
      assert t.procs[g.src].items[k] == s.procs[g.src].items[k];
    }
    FlightContinues(P, s, f);
    forall g | g in t.matched ensures MatchedFits(P, t, g) {
      assert g != f ==> MatchedFits(P, s, g);
      ReceivedThrough(P, s, p, f, g.src, g.send);
    }
    forall a: nat, q: nat | a < P.n && q < P.n && t.procs[a].stage.Left? ensures Entered(t, q) {
      assert s.procs[a].stage.Left? && Entered(s, q);
    }
  }

  lemma EnterKeeps(P: Exchange, s: System, p: nat)
    requires WellFormed(P) && Inv(P, s) && Enabled(P, s, EnterLoop(p))
    ensures Inv(P, Apply(P, s, EnterLoop(p)))
  {
    var t, items := Apply(P, s, EnterLoop(p)), s.procs[p].items;
    assert ProcessFits(P, s, p);
    assert ProcessFits(P, t, p) by {
      forall k: nat | k < |items| ensures ItemFits(P, t, p, items[k]) {
        ItemStays(P, s, t, p, items[k]);
      }
      forall send: nat | IsJob(P, p, send) ensures JobFits(P, t, p, send) {
        assert t.procs[p].items[send].send == send;
      }
    }
    forall f: Fragment | f in t.flight && f.src == p ensures FlightFits(P, t, f) {
      assert FlightFits(P, s, f);
      FlightStays(P, s, t, p, f);
    }
    OthersFit(P, s, t, p);
  }

  lemma SenderIsBusy(P: Exchange, s: System, f: Fragment)
    requires WellFormed(P) && Inv(P, s) && f in s.flight
    ensures f.src < P.n && !Entered(s, f.src)
  {
    FlightContinues(P, s, f);
    assert ProcessFits(P, s, f.src);
  }

  /** Once every process has entered the barrier, nothing is in flight and every job is through. */
  lemma AllEnteredIsQuiet(P: Exchange, s: System)
    requires WellFormed(P) && Inv(P, s) && forall q: nat :: q < P.n ==> Entered(s, q)
    ensures s.flight == multiset{}
    ensures forall q: nat, send: nat :: IsJob(P, q, send) ==> Through(P, s, q, send) == P.jobs(q)[send].count
  {
    forall f ensures f !in s.flight {
      if f in s.flight {
        SenderIsBusy(P, s, f);
      }
    }
    forall q: nat, send: nat | IsJob(P, q, send) ensures Through(P, s, q, send) == P.jobs(q)[send].count {
      assert Entered(s, q) && ProcessFits(P, s, q);
      assert JobFits(P, s, q, send);
    }
  }

  lemma LeaveKeeps(P: Exchange, s: System, p: nat)
    requires WellFormed(P) && Inv(P, s) && Enabled(P, s, Leave(p))
    ensures Inv(P, Apply(P, s, Leave(p)))
  {
    var t := Apply(P, s, Leave(p));
    forall q: nat | q < P.n ensures ProcessFits(P, t, q) {
      assert ProcessFits(P, s, q) && Entered(s, q);
      SameThrough(P, s, t, q);
      forall send: nat | IsJob(P, q, send) ensures JobFits(P, t, q, send) {
        assert JobFits(P, s, q, send);
      }
    }
    AllEnteredIsQuiet(P, s);
    forall f | f in t.matched ensures MatchedFits(P, t, f) {
      assert MatchedFits(P, s, f);
      SameThrough(P, s, t, f.src);
    }
    forall q: nat | q < P.n ensures Entered(t, q) {
      assert Entered(s, q);
    }
  }

  lemma StepKeeps(P: Exchange, s: System, e: Event)
    requires WellFormed(P) && Inv(P, s) && Enabled(P, s, e)
    ensures Inv(P, Apply(P, s, e))
  {
    match e
    case Post(p) => PostKeeps(P, s, p);
    case Receive(p, f) => ReceiveKeeps(P, s, p, f);
    case Complete(p, k) => CompleteKeeps(P, s, p, k);
    case Sweep(p) => SweepKeeps(P, s, p);
    case EnterLoop(p) => EnterKeeps(P, s, p);
    case Leave(p) => LeaveKeeps(P, s, p);
  }

  lemma {:induction false} RunFits(P: Exchange, run: seq<System>, i: nat)
    requires WellFormed(P) && IsRun(P, run) && i < |run|
    ensures Inv(P, run[i])
  {
    if i == 0 {
      InitFits(P);
    } else {
      RunFits(P, run, i - 1);
      assert IsStep(P, run[i - 1], run[i - 1 + 1]);
      var e :| Enabled(P, run[i - 1], e) && run[i] == Apply(P, run[i - 1], e);
      StepKeeps(P, run[i - 1], e);
    }
  }
}
