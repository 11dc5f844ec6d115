/**
 * One process's side of the point-to-point messages: sends and receives longer than the message
 * limit are cut into fragments, and `iwaitall` drives the rest of them.
 */
module Messaging {
  import opened Arithmetic
  import opened SwapRemoval

  /** Where fragment i of a message of `total` bytes begins; from the end on, it is the end. */
  function Cut(total: nat, limit: nat, i: nat): (c: nat)
    ensures c <= total
  {
    if i == 0 then 0 else Cut(total, limit, i - 1) + Min(limit, total - Cut(total, limit, i - 1))
  }

  /** Fragments are as long as the limit, as far as the message reaches. */
  lemma {:induction false} CutsAreMultiples(total: nat, limit: nat, i: nat)
    ensures Cut(total, limit, i) == Min(i * limit, total)
  {
    if i > 0 {
      CutsAreMultiples(total, limit, i - 1);
      assert i * limit == (i - 1) * limit + limit;
    }
  }

  /** A send longer than the limit; `addr` and `size` include the fragment under way. */
  datatype Large = Large(addr: nat, size: nat, dst: nat, tag: nat)

  /** The request of a long send is active while its current fragment is under way. */
  datatype Request = Active | Null

  datatype Entry = Entry(send: Large, request: Request)

  /** A receive: the rest of the message, of `size` bytes, goes to `buffer` at `pos`. */
  datatype Recv<B> = Recv(pos: nat, size: nat, buffer: seq<B>, taken: nat)

  /**
   * `sent` is, for the send to each destination and tag, how many of its fragments have been started;
   * `small` are the requests of messages and last fragments within the limit.
   */
  datatype Box<B> = Box(sent: map<(nat, nat), nat>, large: seq<Entry>, small: seq<Request>,
                        recvs: seq<Recv<B>>, empties: nat, waiting: nat)

  function Fresh<B>(): Box<B> {
    Box(map[], [], [], [], 0, 0)
  }

  /** The first fragment goes out at once; a longer message is remembered.  Nothing is sent for an empty one. */
  function AfterSend<B>(b: Box<B>, bytes: nat, dst: nat, tag: nat, limit: nat): Box<B> {
    b.(sent := b.sent[(dst, tag) := if Min(limit, bytes) > 0 then 1 else 0],
       large := b.large + if bytes > limit then [Entry(Large(0, bytes, dst, tag), Active)] else [],
       small := b.small + if bytes > limit then [] else [if bytes > 0 then Active else Null])
  }

  function AfterRecv<B>(b: Box<B>, buffer: seq<B>): Box<B> {
    b.(recvs := b.recvs + [Recv(0, |buffer|, buffer, 0)], empties := b.empties + if |buffer| == 0 then 1 else 0)
  }

  /** Waiting begins: every receive that is not empty is still to be finished. */
  function Started<B>(b: Box<B>): Box<B>
    requires b.empties <= |b.recvs|
  {
    b.(waiting := |b.recvs| - b.empties)
  }

  /** The fragment of long send j is out: the next one is started, the last one as a normal send. */
  function Continued<B>(b: Box<B>, j: nat, limit: nat): Box<B>
    requires j < |b.large| && b.large[j].send.size >= limit && (b.large[j].send.dst, b.large[j].send.tag) in b.sent
  {
    var l := b.large[j].send;
    var rest := l.(addr := l.addr + limit, size := l.size - limit);
    b.(sent := b.sent[(l.dst, l.tag) := b.sent[(l.dst, l.tag)] + 1],
       large := b.large[j := Entry(rest, if rest.size <= limit then Null else Active)],
       small := b.small + if rest.size <= limit then [Active] else [])
  }

  predicate IsNull(entry: Entry) {
    entry.request.Null?
  }

  function Dequeued<B>(b: Box<B>): Box<B> {
    b.(large := SweepDown(b.large, IsNull, |b.large|))
  }

  lemma DequeueDropsNull<B>(b: Box<B>)
    ensures forall x :: multiset(Dequeued(b).large)[x] == if IsNull(x) then 0 else multiset(b.large)[x]
  {
    SweepDownSweeps(b.large, IsNull, |b.large|);
  }

  function Overwritten<B>(buffer: seq<B>, pos: nat, bytes: seq<B>): (r: seq<B>)
    requires pos + |bytes| <= |buffer|
    ensures |r| == |buffer| && r[..pos] == buffer[..pos] && r[pos..pos + |bytes|] == bytes
  {
    buffer[..pos] + bytes + buffer[pos + |bytes|..]
  }

  function Received<B>(b: Box<B>, tag: nat, bytes: seq<B>, limit: nat): Box<B>
    requires tag < |b.recvs| && b.recvs[tag].pos + |bytes| <= |b.recvs[tag].buffer|
    requires b.recvs[tag].size <= limit ==> b.waiting > 0
  {
    var r := b.recvs[tag];
    var filled := r.(buffer := Overwritten(r.buffer, r.pos, bytes), taken := r.taken + 1);
    if r.size > limit then b.(recvs := b.recvs[tag := filled.(pos := r.pos + limit, size := r.size - limit)])
    else b.(recvs := b.recvs[tag := filled], waiting := b.waiting - 1)
  }

  ghost function Zipped(s: seq<Large>, t: seq<Request>): (z: seq<Entry>)
    requires |s| == |t|
    ensures |z| == |s| && forall i :: 0 <= i < |s| ==> z[i] == Entry(s[i], t[i])
  {
    seq(|s|, i requires 0 <= i < |s| => Entry(s[i], t[i]))
  }

  class Messenger<B> {
    const limit: nat
    var largeSends: seq<Large>
    var largeRequests: seq<Request>
    var imsgs: seq<Request>
    var irecvs: seq<Recv<B>>
    var emptyRecvs: nat
    var nMsgs: nat
    ghost var sent: map<(nat, nat), nat>

    ghost predicate Valid()
      reads this
    {
      limit > 0 && |largeSends| == |largeRequests|
    }

    /** Long sends and their requests, paired by index. */
    ghost function Pairs(): seq<Entry>
      reads this
      requires |largeSends| == |largeRequests|
    {
      Zipped(largeSends, largeRequests)
    }

    ghost function State(): Box<B>
      reads this
      requires |largeSends| == |largeRequests|
    {
      Box(sent, Pairs(), imsgs, irecvs, emptyRecvs, nMsgs)
    }

    constructor (maxMpiMsgSize: nat)
      requires maxMpiMsgSize > 0
      ensures Valid() && State() == Fresh() && limit == maxMpiMsgSize
    {
      limit := maxMpiMsgSize;
      largeSends, largeRequests, imsgs, irecvs, emptyRecvs, nMsgs, sent := [], [], [], [], 0, 0, map[];
    }

    /** Returns the length of the message that goes out at once. */
    method Isend(bytes: nat, dst: nat, tag: nat) returns (first: nat)
      requires Valid()
      modifies this
      ensures Valid() && State() == AfterSend(old(State()), bytes, dst, tag, limit) && first == Cut(bytes, limit, 1)
      ensures first <= limit && (first < bytes ==> first == limit)
      ensures imsgs == old(imsgs) + if bytes > limit then [] else [if bytes > 0 then Active else Null]
    {
      first := if limit < bytes then limit else bytes;
      if first < bytes {
        largeSends := largeSends + [Large(0, bytes, dst, tag)];
        largeRequests := largeRequests + [Active];
      } else {
        imsgs := imsgs + [if first > 0 then Active else Null];
      }
      sent := sent[(dst, tag) := if first > 0 then 1 else 0];
    }

    method Irecv(buffer: seq<B>, tag: nat)
      requires Valid() && tag == |irecvs|
      modifies this
      ensures Valid() && State() == AfterRecv(old(State()), buffer)
    {
      irecvs := irecvs + [Recv(0, |buffer|, buffer, 0)];
      if |buffer| == 0 {
        emptyRecvs := emptyRecvs + 1;
      }
    }

    method StartWaiting()
      requires Valid() && emptyRecvs <= |irecvs|
      modifies this`nMsgs
      ensures State() == Started(old(State()))
    {
      nMsgs := |irecvs| - emptyRecvs;
    }

    /** The loop is over. */
    method Finish()
      requires Valid() && nMsgs == 0 && largeSends == []
      modifies this`irecvs, this`emptyRecvs
      ensures Valid() && State() == old(State()).(recvs := [], empties := 0)
    {
      irecvs, emptyRecvs := [], 0;
    }

    /** MPI has completed the small requests as well; the next round of messages starts afresh. */
    method Drain()
      requires Valid() && State() == Fresh<B>().(sent := sent, small := imsgs)
      modifies this`imsgs, this`sent
      ensures Valid() && State() == Fresh()
    {
      imsgs, sent := [], map[];
    }

    /** Long send j is reported complete by MPI; returns where its next message begins, and its length. */
    method Continue(j: nat) returns (addr: nat, length: nat)
      requires Valid() && j < |largeSends| && largeSends[j].size > limit
      requires (largeSends[j].dst, largeSends[j].tag) in sent
      modifies this
      ensures Valid() && State() == Continued(old(State()), j, limit)
      ensures addr == old(largeSends[j]).addr + limit && length == Min(limit, old(largeSends[j]).size - limit) > 0
      ensures imsgs == old(imsgs) + if length == old(largeSends[j]).size - limit then [Active] else []
    {
      var send := largeSends[j];
      addr := send.addr + limit;
      var size := send.size - limit;
      largeSends := largeSends[j := send.(addr := addr, size := size)];
      if size <= limit {
        largeRequests, imsgs := largeRequests[j := Null], imsgs + [Active];
      } else {
        largeRequests := largeRequests[j := Active];
      }
      length := if limit < size then limit else size;
      sent := sent[(send.dst, send.tag) := sent[(send.dst, send.tag)] + 1];
    }

    method SwapWithLast(i: nat)
      requires Valid() && i < |largeSends|
      modifies this`largeSends, this`largeRequests
      ensures Valid() && Pairs() == DropAt(old(Pairs()), i)
    {
      var n := |largeSends| - 1;
      largeRequests := largeRequests[i := largeRequests[n]][..n];
      largeSends := largeSends[i := largeSends[n]][..n];
    }

    /** Takes the long sends without a request out of the queue; sends and requests stay aligned. */
    method Dequeue()
      requires Valid()
      modifies this`largeSends, this`largeRequests
      ensures Valid() && State() == Dequeued(old(State()))
      ensures forall x :: multiset(Pairs())[x] == if IsNull(x) then 0 else multiset(old(Pairs()))[x]
    {
      var i: nat := |largeRequests|;
      while i > 0
        invariant Valid() && i <= |largeRequests|
        invariant SweepDown(Pairs(), IsNull, i) == Dequeued(old(State())).large
      {
        if largeRequests[i - 1].Null? {
          SwapWithLast(i - 1);
        }
        i := i - 1;
      }
      DequeueDropsNull(old(State()));
    }

    /** A message with this tag has been probed; `bytes` is what the receive puts in the buffer. */
    method Receive(tag: nat, bytes: seq<B>)
      requires Valid() && tag < |irecvs| && irecvs[tag].pos + |bytes| <= |irecvs[tag].buffer|
      requires irecvs[tag].size <= limit ==> nMsgs > 0
      modifies this
      ensures Valid() && State() == Received(old(State()), tag, bytes, limit)
    {
      var r := irecvs[tag];
      var filled := r.(buffer := Overwritten(r.buffer, r.pos, bytes), taken := r.taken + 1);
      if r.size > limit {
        irecvs := irecvs[tag := filled.(pos := r.pos + limit, size := r.size - limit)];
      } else {
        irecvs := irecvs[tag := filled];
        nMsgs := nMsgs - 1;
      }
    }
  }
}
