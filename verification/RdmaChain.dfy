/** The chains of RDMA work requests a put or a get is cut into. */
module RdmaChain {
  import opened Arithmetic

  /** There is no read with an immediate value, so a get ends with an empty write. */
  datatype Opcode = Write | WriteWithImm | Read

  /** `next` is the index of the next request in the chain, or NULL. */
  datatype WorkRequest = WorkRequest(opcode: Opcode, local: nat, remote: nat, length: nat,
                                     signalled: bool, imm: nat, next: int)

  const NULL: int := -1

  function Blank(): WorkRequest {
    WorkRequest(Write, 0, 0, 0, false, 0, 0)
  }

  /** The number of messages of at most `limit` bytes that `size` bytes need. */
  function Chunks(size: nat, limit: nat): nat
    requires limit > 0
  {
    size / limit + if size % limit > 0 then 1 else 0
  }

  /** One message takes care of `limit` bytes, or of all there are. */
  lemma ChunksStep(size: nat, limit: nat)
    requires limit > 0
    ensures size == 0 <==> Chunks(size, limit) == 0
    ensures size > 0 ==> Chunks(size, limit) == 1 + Chunks(size - Min(limit, size), limit)
  {
    if size >= limit {
      DivisionSteps(size, limit);
    } else {
      assert size / limit == 0 && size % limit == size;
    }
    assert 0 / limit == 0 && 0 % limit == 0;
    if size > 0 && size < limit {
      assert Chunks(0, limit) == 0;
    }
  }

  // ---------------------------------------------------------------- what a chain does

  /** The bytes the first `k` requests carry. */
  function Covered(srs: seq<WorkRequest>, k: nat): nat
    requires k <= |srs|
  {
    if k == 0 then 0 else Covered(srs, k - 1) + srs[k - 1].length
  }

  /** Requests go over both areas from the start, in order, without gaps, at most `limit` bytes each. */
  ghost predicate Tiles(srs: seq<WorkRequest>, local: nat, remote: nat, size: nat, limit: nat) {
    && (forall k :: 0 <= k < |srs| ==> Tile(srs, local, remote, limit, k))
    && Covered(srs, |srs|) == size
  }

  ghost predicate Tile(srs: seq<WorkRequest>, local: nat, remote: nat, limit: nat, k: int)
    requires 0 <= k < |srs|
  {
    srs[k].local == local + Covered(srs, k) && srs[k].remote == remote + Covered(srs, k) && srs[k].length <= limit
  }

  /** Each request points to the next, and the last to none. */
  ghost predicate IsChain(srs: seq<WorkRequest>) {
    srs != [] && forall k :: 0 <= k < |srs| ==> srs[k].next == if k == |srs| - 1 then NULL else k + 1
  }

  /** The hardware's order: from request i on, along the links. */
  function Follow(srs: seq<WorkRequest>, i: nat): seq<WorkRequest>
    requires i < |srs|
    decreases |srs| - i
  {
    [srs[i]] + if i < srs[i].next < |srs| then Follow(srs, srs[i].next) else []
  }

  lemma {:induction false} FollowsAll(srs: seq<WorkRequest>, i: nat)
    requires IsChain(srs) && i < |srs|
    ensures Follow(srs, i) == srs[i..]
    decreases |srs| - i
  {
    if i < |srs| - 1 {
      FollowsAll(srs, i + 1);
    }
  }

  /** Only the last request reports completion, here by its signal and there by its immediate value. */
  ghost predicate CompletesOnce(srs: seq<WorkRequest>, imm: nat) {
    && srs != []
    && (forall k :: 0 <= k < |srs| ==> (srs[k].signalled <==> k == |srs| - 1))
    && (forall k :: 0 <= k < |srs| ==> (srs[k].opcode.WriteWithImm? <==> k == |srs| - 1))
    && srs[|srs| - 1].imm == imm
  }

  type Memory<B> = nat -> B

  ghost function Copied<B>(dst: Memory<B>, src: Memory<B>, to: nat, from: nat, len: nat): Memory<B> {
    (a: nat) => if to <= a < to + len then src(from + (a - to)) else dst(a)
  }

  /** The memories of the issuing and of the other process. */
  datatype Machine<B> = Machine(local: Memory<B>, remote: Memory<B>)

  ghost function Execute<B>(sr: WorkRequest, m: Machine<B>): Machine<B> {
    if sr.opcode.Read? then m.(local := Copied(m.local, m.remote, sr.local, sr.remote, sr.length))
    else m.(remote := Copied(m.remote, m.local, sr.remote, sr.local, sr.length))
  }

  ghost function ExecuteAll<B>(srs: seq<WorkRequest>, m: Machine<B>): Machine<B> {
    if srs == [] then m else Execute(srs[|srs| - 1], ExecuteAll(srs[..|srs| - 1], m))
  }

  lemma {:induction false} CoveredFront(srs: seq<WorkRequest>, front: seq<WorkRequest>, k: nat)
    requires k <= |front| <= |srs| && front == srs[..|front|]
    ensures Covered(front, k) == Covered(srs, k)
  {
    if k > 0 {
      CoveredFront(srs, front, k - 1);
    }
  }

  lemma FrontTiles(srs: seq<WorkRequest>, local: nat, remote: nat, size: nat, limit: nat)
    requires srs != [] && Tiles(srs, local, remote, size, limit)
    ensures Tiles(srs[..|srs| - 1], local, remote, Covered(srs, |srs| - 1), limit)
  {
    var front := srs[..|srs| - 1];
    forall k | 0 <= k < |front| ensures Tile(front, local, remote, limit, k) {
      CoveredFront(srs, front, k);
      assert Tile(srs, local, remote, limit, k);
    }
    CoveredFront(srs, front, |front|);
  }

  /** A tiling chain of writes is one copy from here to there. */
  lemma {:induction false} WritesAreOneCopy<B>(srs: seq<WorkRequest>, local: nat, remote: nat, size: nat, limit: nat,
                                               m: Machine<B>, a: nat)
    requires Tiles(srs, local, remote, size, limit) && forall k :: 0 <= k < |srs| ==> !srs[k].opcode.Read?
    ensures ExecuteAll(srs, m).local == m.local
    ensures ExecuteAll(srs, m).remote(a) == Copied(m.remote, m.local, remote, local, size)(a)
  {
    if srs != [] {
      FrontTiles(srs, local, remote, size, limit);
      WritesAreOneCopy(srs[..|srs| - 1], local, remote, Covered(srs, |srs| - 1), limit, m, a);
      assert Tile(srs, local, remote, limit, |srs| - 1);
    }
  }

  /** A tiling chain of reads is one copy from there to here. */
  lemma {:induction false} ReadsAreOneCopy<B>(srs: seq<WorkRequest>, local: nat, remote: nat, size: nat, limit: nat,
                                              m: Machine<B>, a: nat)
    requires Tiles(srs, local, remote, size, limit) && forall k :: 0 <= k < |srs| ==> srs[k].opcode.Read?
    ensures ExecuteAll(srs, m).remote == m.remote
    ensures ExecuteAll(srs, m).local(a) == Copied(m.local, m.remote, local, remote, size)(a)
  {
    if srs != [] {
      FrontTiles(srs, local, remote, size, limit);
      ReadsAreOneCopy(srs[..|srs| - 1], local, remote, Covered(srs, |srs| - 1), limit, m, a);
      assert Tile(srs, local, remote, limit, |srs| - 1);
    }
  }

  // ---------------------------------------------------------------- building the chains

  /** One more request continues the tiling. */
  lemma TilesNext(srs: seq<WorkRequest>, sr: WorkRequest, local: nat, remote: nat, size: nat, limit: nat)
    requires Tiles(srs, local, remote, size, limit)
    requires sr.local == local + size && sr.remote == remote + size && sr.length <= limit
    ensures Tiles(srs + [sr], local, remote, size + sr.length, limit)
  {
    var all := srs + [sr];
    forall k | 0 <= k < |all| ensures Tile(all, local, remote, limit, k) {
      CoveredFront(all, srs, k);
      assert k < |srs| ==> Tile(srs, local, remote, limit, k);
    }
    CoveredFront(all, srs, |srs|);
  }

  /** Cuts `size` bytes into messages, for a put: `local` and `remote` are the start addresses. */
  method Put(local: nat, remote: nat, bytes: nat, limit: nat, counter: nat) returns (chain: seq<WorkRequest>)
    requires limit > 0
    ensures IsChain(chain) && CompletesOnce(chain, counter) && Tiles(chain, local, remote, bytes, limit)
    ensures |chain| == if bytes == 0 then 1 else Chunks(bytes, limit)
    ensures forall k :: 0 <= k < |chain| ==> !chain[k].opcode.Read?
    ensures forall k :: 0 <= k < |chain| - 1 ==> chain[k].length == limit
  {
    var numMsgs := bytes / limit + if bytes % limit > 0 then 1 else 0;
    if bytes == 0 {
      numMsgs := 1;
    }
    ChunksStep(bytes, limit);
    var srs := new WorkRequest[numMsgs](i => Blank());
    var size: nat, offset: nat := bytes, 0;
    for i := 0 to numMsgs
      invariant offset + size == bytes && (bytes > 0 ==> Chunks(size, limit) == numMsgs - i)
      invariant Tiles(srs[..i], local, remote, offset, limit)
      invariant forall k :: 0 <= k < i ==> PutRequest(srs[k], k, numMsgs, counter)
      invariant forall k :: 0 <= k < i && k < numMsgs - 1 ==> srs[k].length == limit
    {
      var length: nat := if size < limit then size else limit;
      var lastMsg := i == numMsgs - 1;
      ChunksStep(size, limit);
      var sr := WorkRequest(if lastMsg then WriteWithImm else Write, local + offset, remote + offset, length,
                            lastMsg, counter, if lastMsg then NULL else i + 1);
      TilesNext(srs[..i], sr, local, remote, offset, limit);
      srs[i] := sr;
      assert srs[..i + 1] == srs[..i] + [sr];
      size := size - length;
      offset := offset + length;
    }
    ChunksStep(size, limit);
    chain := srs[..];
    assert chain == srs[..numMsgs];
  }

  ghost predicate PutRequest(sr: WorkRequest, k: int, n: int, counter: nat) {
    && (sr.signalled <==> k == n - 1)
    && sr.opcode == (if k == n - 1 then WriteWithImm else Write)
    && sr.next == (if k == n - 1 then NULL else k + 1) && sr.imm == counter
  }

  ghost predicate GetRequest(sr: WorkRequest, k: int) {
    sr.opcode.Read? && !sr.signalled && sr.next == k + 1
  }

  /** Cuts `size` bytes into reads, followed by an empty write that completes here and there. */
  method Get(local: nat, remote: nat, base: nat, remoteBase: nat, bytes: nat, limit: nat, counter: nat)
    returns (chain: seq<WorkRequest>)
    requires limit > 0
    ensures IsChain(chain) && CompletesOnce(chain, counter) && |chain| == Chunks(bytes, limit) + 1
    ensures Tiles(chain[..|chain| - 1], local, remote, bytes, limit)
    ensures forall k :: 0 <= k < |chain| - 1 ==> chain[k].opcode.Read?
    ensures forall k :: 0 <= k < |chain| - 2 ==> chain[k].length == limit
    ensures chain[|chain| - 1] == WorkRequest(WriteWithImm, base, remoteBase, 0, true, counter, NULL)
  {
    var numMsgs := bytes / limit + if bytes % limit > 0 then 1 else 0;
    var srs := new WorkRequest[numMsgs + 1](i => Blank());
    var size: nat, offset: nat := bytes, 0;
    for i := 0 to numMsgs
      invariant offset + size == bytes && Chunks(size, limit) == numMsgs - i
      invariant Tiles(srs[..i], local, remote, offset, limit)
      invariant forall k :: 0 <= k < i ==> GetRequest(srs[k], k)
      invariant forall k :: 0 <= k < i && k < numMsgs - 1 ==> srs[k].length == limit
    {
      var length: nat := if size < limit then size else limit;
      ChunksStep(size, limit);
      var sr := WorkRequest(Read, local + offset, remote + offset, length, false, 0, i + 1);
      TilesNext(srs[..i], sr, local, remote, offset, limit);
      srs[i] := sr;
      assert srs[..i + 1] == srs[..i] + [sr];
      size := size - length;
      offset := offset + length;
    }
    ChunksStep(size, limit);
    ghost var gets := srs[..numMsgs];
    srs[numMsgs] := WorkRequest(WriteWithImm, base, remoteBase, 0, true, counter, NULL);
    chain := srs[..];
    assert chain[..numMsgs] == gets;
  }

  /** Executing the chain of a put, whatever its size, is one copy to the other process. */
  method PutIsOneCopy<B>(local: nat, remote: nat, bytes: nat, limit: nat, counter: nat, ghost m: Machine<B>)
    returns (chain: seq<WorkRequest>)
    requires limit > 0
    ensures chain != [] && CompletesOnce(Follow(chain, 0), counter)
    ensures ExecuteAll(Follow(chain, 0), m).local == m.local
    ensures forall a: nat :: ExecuteAll(Follow(chain, 0), m).remote(a)
              == Copied(m.remote, m.local, remote, local, bytes)(a)
  {
    chain := Put(local, remote, bytes, limit, counter);
    FollowsAll(chain, 0);
    forall a: nat ensures ExecuteAll(chain, m).remote(a) == Copied(m.remote, m.local, remote, local, bytes)(a) {
      WritesAreOneCopy(chain, local, remote, bytes, limit, m, a);
    }
    WritesAreOneCopy(chain, local, remote, bytes, limit, m, 0);
  }

  /** Executing the chain of a get is one copy from the other process, whose memory stays as it is. */
  method GetIsOneCopy<B>(local: nat, remote: nat, base: nat, remoteBase: nat, bytes: nat, limit: nat, counter: nat,
                         ghost m: Machine<B>) returns (chain: seq<WorkRequest>)
    requires limit > 0
    ensures chain != [] && CompletesOnce(Follow(chain, 0), counter)
    ensures forall a: nat :: ExecuteAll(Follow(chain, 0), m).remote(a) == m.remote(a)
    ensures forall a: nat :: ExecuteAll(Follow(chain, 0), m).local(a)
              == Copied(m.local, m.remote, local, remote, bytes)(a)
  {
    chain := Get(local, remote, base, remoteBase, bytes, limit, counter);
    FollowsAll(chain, 0);
    ghost var gets := chain[..|chain| - 1];
    forall a: nat
      ensures ExecuteAll(chain, m).remote(a) == m.remote(a)
      ensures ExecuteAll(chain, m).local(a) == Copied(m.local, m.remote, local, remote, bytes)(a)
    {
      ReadsAreOneCopy(gets, local, remote, bytes, limit, m, a);
    }
  }
}
