/**
 * One process's side of the superstep protocol: the counters the RDMA layer keeps, and what
 * each of its calls does to them.  The class below is the running code; `Verbs` is its state
 * as a value, and the functions on `Verbs` are the steps the protocol is built from.
 */
module Verbs {

  const BUCKETS: nat := 1024
  const POLL_BATCH: nat := 8
  const MAX_POLLING: nat := 128

  datatype Mode = Default | Cached | Message(count: nat) | NoMode

  /** `barrier` is the flag after decoding, so it always holds for `Default`. */
  datatype Attr = Attr(mode: Mode, barrier: bool)

  datatype SyncRequest = SyncRequest(isActive: bool, withBarrier: bool, secondPhase: bool, remoteMsgs: nat)

  datatype Verbs = Verbs(
    counter: nat,
    recvCounts: seq<nat>,
    numMsgs: nat,
    numMsgsSync: seq<nat>,
    cached: bool,
    cachedValue: nat,
    request: SyncRequest)

  ghost predicate Shaped(v: Verbs, nprocs: nat) {
    |v.recvCounts| == BUCKETS && |v.numMsgsSync| == nprocs
  }

  function Zeros(n: nat): (z: seq<nat>)
    ensures |z| == n && forall i :: 0 <= i < n ==> z[i] == 0
  {
    seq(n, i => 0)
  }

  function Start(nprocs: nat): Verbs {
    Verbs(0, Zeros(BUCKETS), 0, Zeros(nprocs), false, 0, SyncRequest(false, false, false, 0))
  }

  /** A put, get or atomic towards `peer` is posted. */
  function Post(v: Verbs, peer: nat): Verbs
    requires peer < |v.numMsgsSync|
  {
    v.(numMsgs := v.numMsgs + 1, numMsgsSync := v.numMsgsSync[peer := v.numMsgsSync[peer] + 1])
  }

  /** `n` of this process's own operations completed locally. */
  function Acknowledge(v: Verbs, n: nat): Verbs
    requires n <= v.numMsgs
  {
    v.(numMsgs := v.numMsgs - n)
  }

  /** A remote operation with immediate value `imm` arrived. */
  function Arrive(v: Verbs, imm: nat): Verbs
    requires |v.recvCounts| == BUCKETS
  {
    v.(recvCounts := v.recvCounts[imm % BUCKETS := v.recvCounts[imm % BUCKETS] + 1])
  }

  function ArriveAll(v: Verbs, imms: seq<nat>): (r: Verbs)
    requires |v.recvCounts| == BUCKETS
    ensures |r.recvCounts| == BUCKETS && r == v.(recvCounts := r.recvCounts)
  {
    if imms == [] then v else Arrive(ArriveAll(v, imms[..|imms| - 1]), imms[|imms| - 1])
  }

  /** Whether a sync in this mode starts the count exchange, a collective of all processes. */
  predicate NeedsExchange(cached: bool, mode: Mode) {
    mode.Default? || (mode.Cached? && !cached)
  }

  /** The per-peer counts are taken over by the sync and restart from zero. */
  function Snapshot(v: Verbs): Verbs {
    v.(numMsgsSync := Zeros(|v.numMsgsSync|))
  }

  /** The arrivals a sync waits for; `exchanged` is what the count exchange returned. */
  function Expected(v: Verbs, mode: Mode, exchanged: nat): nat {
    if NeedsExchange(v.cached, mode) then exchanged
    else match mode
      case Cached => v.cachedValue
      case Message(count) => count
      case _ => 0
  }

  /** The sync request is handed to the progress engine. */
  function Activate(v: Verbs, attr: Attr, exchanged: nat): Verbs {
    v.(cached := if attr.mode.Default? then false else v.cached || attr.mode.Cached?,
       cachedValue := if NeedsExchange(v.cached, attr.mode) then exchanged else v.cachedValue,
       request := v.request.(isActive := true, withBarrier := attr.barrier,
                             remoteMsgs := Expected(v, attr.mode, exchanged)))
  }

  predicate Arrived(v: Verbs)
    requires |v.recvCounts| == BUCKETS
  {
    v.recvCounts[v.counter % BUCKETS] >= v.request.remoteMsgs
  }

  /** The current bucket gives up the arrivals the request waited for. */
  function Consume(v: Verbs): Verbs
    requires |v.recvCounts| == BUCKETS && Arrived(v)
  {
    var b := v.counter % BUCKETS;
    v.(recvCounts := v.recvCounts[b := v.recvCounts[b] - v.request.remoteMsgs],
       request := v.request.(remoteMsgs := 0))
  }

  /** The superstep is over. */
  function Finish(v: Verbs): Verbs {
    v.(counter := v.counter + 1, request := v.request.(isActive := false, secondPhase := false))
  }

  /** One visit of the progress engine to an active request; `flag` is the barrier's test. */
  function Progress(v: Verbs, flag: bool): Verbs
    requires |v.recvCounts| == BUCKETS
  {
    if v.request.withBarrier && v.request.secondPhase then
      if flag then Finish(v) else v
    else if Arrived(v) then
      if v.request.withBarrier then var w := Consume(v); w.(request := w.request.(secondPhase := true))
      else Finish(Consume(v))
    else v
  }

  /** The immediates counted so far, bucket by bucket. */
  function InBucket(imms: seq<nat>, b: nat): nat {
    if imms == [] then 0
    else InBucket(imms[..|imms| - 1], b) + if imms[|imms| - 1] % BUCKETS == b then 1 else 0
  }

  lemma {:induction false} ArriveAllCounts(v: Verbs, imms: seq<nat>)
    requires |v.recvCounts| == BUCKETS
    ensures forall b :: 0 <= b < BUCKETS ==>
                          ArriveAll(v, imms).recvCounts[b] == v.recvCounts[b] + InBucket(imms, b)
  {
    if imms != [] {
      ArriveAllCounts(v, imms[..|imms| - 1]);
    }
  }

  lemma ArriveNext(v: Verbs, imms: seq<nat>, k: nat)
    requires |v.recvCounts| == BUCKETS && k < |imms|
    ensures ArriveAll(v, imms[..k + 1]) == Arrive(ArriveAll(v, imms[..k]), imms[k])
  {
    assert imms[..k + 1][..k] == imms[..k];
  }

  /** Polling result of one local completion. */
  datatype Completion = Success | BadStatus

  class IBVerbs {
    const nprocs: nat
    const recvCounts: array<nat>
    const numMsgsSync: array<nat>
    var numMsgs: nat
    var cached: bool
    var cachedValue: nat
    var counter: nat
    var request: SyncRequest

    ghost predicate Valid()
      reads this
    {
      recvCounts.Length == BUCKETS && numMsgsSync.Length == nprocs && recvCounts != numMsgsSync
    }

    ghost function State(): Verbs
      reads this, recvCounts, numMsgsSync
    {
      Verbs(counter, recvCounts[..], numMsgs, numMsgsSync[..], cached, cachedValue, request)
    }

    constructor (n: nat)
      ensures Valid() && nprocs == n && State() == Start(n)
      ensures fresh(recvCounts) && fresh(numMsgsSync)
    {
      nprocs := n;
      recvCounts := new nat[BUCKETS](i => 0);
      numMsgsSync := new nat[n](i => 0);
      numMsgs, cached, cachedValue, counter := 0, false, 0, 0;
      request := SyncRequest(false, false, false, 0);
      new;
      assert recvCounts[..] == Zeros(BUCKETS);
      assert numMsgsSync[..] == Zeros(n);
    }

    /** The counting part of put, get and the atomics. */
    method CountOperation(peer: nat) returns (imm: nat)
      requires Valid() && peer < nprocs
      modifies this`numMsgs, numMsgsSync
      ensures State() == Post(old(State()), peer)
      ensures imm == old(State()).counter
    {
      numMsgs := numMsgs + 1;
      numMsgsSync[peer] := numMsgsSync[peer] + 1;
      imm := counter;
    }

    /**
     * Polls the local completion queue in batches, until a batch comes back short, enough have
     * been taken, or a batch holds a failure.  `numMsgs` drops by exactly what was taken.
     */
    method DoLocalProgress(queue: seq<Completion>) returns (taken: nat, ok: bool)
      requires Valid() && |queue| <= numMsgs
      modifies this`numMsgs
      ensures taken <= |queue| && taken <= MAX_POLLING
      ensures State() == Acknowledge(old(State()), taken)
      ensures ok <==> forall i :: 0 <= i < taken ==> queue[i].Success?
      ensures ok ==> taken == if |queue| <= MAX_POLLING then |queue| else MAX_POLLING
      ensures !ok ==> forall i :: 0 <= i < taken - POLL_BATCH ==> queue[i].Success?
    {
      taken, ok := 0, true;
      var polled := POLL_BATCH;
      while polled == POLL_BATCH && taken < MAX_POLLING
        invariant taken <= |queue| && taken <= MAX_POLLING && polled <= POLL_BATCH
        invariant polled == POLL_BATCH ==> taken % POLL_BATCH == 0
        invariant polled < POLL_BATCH ==> taken == |queue|
        invariant State() == Acknowledge(old(State()), taken)
        invariant forall i :: 0 <= i < taken ==> queue[i].Success?
        decreases MAX_POLLING - taken, polled
      {
        polled := if |queue| - taken < POLL_BATCH then |queue| - taken else POLL_BATCH;
        numMsgs := numMsgs - polled;
        var i := 0;
        while i < polled
          invariant i <= polled
          invariant ok <==> forall j :: 0 <= j < taken + i ==> queue[j].Success?
        {
          if queue[taken + i].BadStatus? {
            ok := false;
          }
          i := i + 1;
        }
        taken := taken + polled;
        if !ok {
          return;
        }
      }
    }

    method CountArrival(imm: nat)
      requires Valid()
      modifies recvCounts
      ensures State() == Arrive(old(State()), imm)
    {
      var b := imm % BUCKETS;
      recvCounts[b] := recvCounts[b] + 1;
    }

    method CountNext(ghost v: Verbs, queue: seq<nat>, k: nat)
      requires Valid() && k < |queue| && |v.recvCounts| == BUCKETS && State() == ArriveAll(v, queue[..k])
      modifies recvCounts
      ensures State() == ArriveAll(v, queue[..k + 1])
    {
      ArriveNext(v, queue, k);
      CountArrival(queue[k]);
    }

    method CountBatch(ghost v: Verbs, queue: seq<nat>, taken: nat, polled: nat)
      requires Valid() && taken + polled <= |queue| && |v.recvCounts| == BUCKETS
      requires State() == ArriveAll(v, queue[..taken])
      modifies recvCounts
      ensures State() == ArriveAll(v, queue[..taken + polled])
    {
      for i := 0 to polled
        invariant State() == ArriveAll(v, queue[..taken + i])
      {
        CountNext(v, queue, taken + i);
      }
    }

    /** Polls the remote completion queue: each arrival lands in the bucket of its superstep. */
    method DoRemoteProgress(queue: seq<nat>) returns (taken: nat)
      requires Valid()
      modifies recvCounts
      ensures taken == if |queue| <= MAX_POLLING then |queue| else MAX_POLLING
      ensures State() == ArriveAll(old(State()), queue[..taken])
    {
      taken := 0;
      var polled := POLL_BATCH;
      while polled == POLL_BATCH && taken < MAX_POLLING
        invariant taken <= |queue| && taken <= MAX_POLLING && polled <= POLL_BATCH
        invariant polled == POLL_BATCH ==> taken % POLL_BATCH == 0
        invariant polled < POLL_BATCH ==> taken == |queue|
        invariant State() == ArriveAll(old(State()), queue[..taken])
        decreases MAX_POLLING - taken, polled
      {
        polled := if |queue| - taken < POLL_BATCH then |queue| - taken else POLL_BATCH;
        CountBatch(old(State()), queue, taken, polled);
        taken := taken + polled;
      }
    }

    /** Called by the progress engine while a request is active; `flag` is the barrier's test. */
    method ProcessSyncRequest(flag: bool) returns (startsBarrier: bool)
      requires Valid() && request.isActive
      modifies this`counter, this`request, recvCounts
      ensures State() == Progress(old(State()), flag)
      ensures startsBarrier <==> request.secondPhase && !old(request.secondPhase)
    {
      startsBarrier := false;
      if request.withBarrier && request.secondPhase {
        if flag {
          request := request.(secondPhase := false, isActive := false);
          counter := counter + 1;
        }
      } else if recvCounts[counter % BUCKETS] >= request.remoteMsgs {
        var b := counter % BUCKETS;
        recvCounts[b] := recvCounts[b] - request.remoteMsgs;
        request := request.(remoteMsgs := 0);
        if request.withBarrier {
          startsBarrier := true;
          request := request.(secondPhase := true);
        } else {
          request := request.(isActive := false, secondPhase := false);
          counter := counter + 1;
        }
      }
    }

    /**
     * The part of sync after the vote: per-peer counts are copied out and cleared, the expected
     * number of arrivals is found, and the request is activated.  `exchanges` tells whether the count
     * exchange is made, and `exchanged` is what it returns to this process; a second request while
     * one is active is an error, which leaves the cache as if there were none.
     */
    method Sync(attr: Attr, exchanged: nat) returns (counts: seq<nat>, exchanges: bool, ok: bool)
      requires Valid() && numMsgs == 0
      modifies this`cached, this`cachedValue, this`request, numMsgsSync
      ensures counts == old(numMsgsSync[..])
      ensures exchanges <==> attr.mode.Default? || (attr.mode.Cached? && !old(cached))
      ensures match attr.mode
              case Default => !cached && cachedValue == exchanged
              case Cached => cached && cachedValue == if old(cached) then old(cachedValue) else exchanged
              case _ => cached == old(cached) && cachedValue == old(cachedValue)
      ensures ok <==> !old(request.isActive)
      ensures ok ==> request.isActive && request.withBarrier == attr.barrier
      ensures ok ==> match attr.mode
                     case Default => request.remoteMsgs == exchanged
                     case Cached => request.remoteMsgs == if old(cached) then old(cachedValue) else exchanged
                     case Message(count) => request.remoteMsgs == count
                     case NoMode => request.remoteMsgs == 0
      ensures ok ==> State() == Activate(Snapshot(old(State())), attr, exchanged)
      ensures !ok ==> request == old(request) && numMsgsSync[..] == Zeros(nprocs)
    {
      counts := numMsgsSync[..];
      for i := 0 to nprocs
        modifies numMsgsSync
        invariant forall j :: 0 <= j < i ==> numMsgsSync[j] == 0
      {
        numMsgsSync[i] := 0;
      }
      assert numMsgsSync[..] == Zeros(nprocs);
      var remoteMsgs := 0;
      exchanges := false;
      match attr.mode {
        case Cached =>
          if cached {
            remoteMsgs := cachedValue;
          } else {
            cached := true;
            remoteMsgs, exchanges := exchanged, true;
            cachedValue := remoteMsgs;
          }
        case Default =>
          remoteMsgs, exchanges := exchanged, true;
          cached := false;
          cachedValue := remoteMsgs;
        case Message(count) =>
          remoteMsgs := count;
        case NoMode =>
      }
      ok := !request.isActive;
      if ok {
        request := request.(withBarrier := attr.barrier, remoteMsgs := remoteMsgs, isActive := true);
      }
    }
  }
}
